/** Sequence operations the source gets from its platform: `Array.prototype.filter`,
    and the `ORDER BY name ASC` sort SQLite applies to every catalog read. */
module Collections {

  /** `r` can be obtained from `s` by deleting elements, keeping the order of the rest. */
  predicate IsSubsequence<T(==)>(r: seq<T>, s: seq<T>)
    decreases |s|
  {
    r == [] || (s != [] && ((r[0] == s[0] && IsSubsequence(r[1..], s[1..])) || IsSubsequence(r, s[1..])))
  }

  /** `s.filter(f)`: keeps, in order, exactly the elements that satisfy `f`. */
  function Where<T(==,!new)>(s: seq<T>, f: T -> bool): (r: seq<T>)
    ensures IsSubsequence(r, s)
    ensures forall x :: x in r <==> x in s && f(x)
  {
    if s == [] then []
    else
      assert s == [s[0]] + s[1..];
      if f(s[0]) then [s[0]] + Where(s[1..], f) else Where(s[1..], f)
  }

  /** No element occurs twice. */
  predicate NoDuplicates<T(==)>(s: seq<T>) {
    forall i, j :: 0 <= i < j < |s| ==> s[i] != s[j]
  }

  lemma {:induction false} NoDuplicatesCounts<T>(s: seq<T>)
    requires NoDuplicates(s)
    ensures forall x :: multiset(s)[x] <= 1
  {
    if s != [] {
      NoDuplicatesCounts(s[1..]);
      assert s == [s[0]] + s[1..];
      forall j | 0 <= j < |s| - 1
        ensures s[1..][j] != s[0]
      {
        assert s[1..][j] == s[j + 1];
      }
      assert s[0] !in multiset(s[1..]);
    }
  }

  lemma {:induction false} CountsNoDuplicates<T>(s: seq<T>)
    requires forall x :: multiset(s)[x] <= 1
    ensures NoDuplicates(s)
  {
    if s != [] {
      assert s == [s[0]] + s[1..];
      assert multiset(s) == multiset{s[0]} + multiset(s[1..]);
      forall x
        ensures multiset(s[1..])[x] <= 1
      {
        assert multiset(s)[x] == multiset{s[0]}[x] + multiset(s[1..])[x];
      }
      CountsNoDuplicates(s[1..]);
      forall i, j | 0 <= i < j < |s|
        ensures s[i] != s[j]
      {
        if i == 0 {
          assert s[1..][j - 1] == s[j];
          assert multiset(s[1..])[s[j]] >= 1;
          assert multiset(s)[s[0]] == 1 + multiset(s[1..])[s[0]];
        } else {
          assert s[1..][i - 1] == s[i] && s[1..][j - 1] == s[j];
        }
      }
    }
  }

  /** A multiset at most as large as one without duplicates describes sequences without
      duplicates: filtering and sorting never introduce a repeated element. */
  lemma NoDuplicatesWithin<T>(r: seq<T>, s: seq<T>)
    requires NoDuplicates(s) && multiset(r) <= multiset(s)
    ensures NoDuplicates(r)
  {
    NoDuplicatesCounts(s);
    CountsNoDuplicates(r);
  }

  /** Filtering takes each element at most as often as it occurs. */
  lemma {:induction false} WhereWithin<T(!new)>(s: seq<T>, f: T -> bool)
    ensures multiset(Where(s, f)) <= multiset(s)
  {
    if s != [] {
      WhereWithin(s[1..], f);
      assert s == [s[0]] + s[1..];
    }
  }

  /** Filtering keeps every occurrence of an element it keeps and none of one it drops. */
  lemma {:induction false} WhereCounts<T(!new)>(s: seq<T>, f: T -> bool)
    ensures forall x :: multiset(Where(s, f))[x] == if f(x) then multiset(s)[x] else 0
  {
    if s != [] {
      WhereCounts(s[1..], f);
      assert s == [s[0]] + s[1..];
    }
  }

  /** Filtering a sequence none of whose elements is dropped leaves it as it is. */
  lemma {:induction false} WhereKeepsAll<T(!new)>(s: seq<T>, f: T -> bool)
    requires forall i :: 0 <= i < |s| ==> f(s[i])
    ensures Where(s, f) == s
  {
    if s != [] {
      WhereKeepsAll(s[1..], f);
    }
  }

  /** Filtering distributes over concatenation. */
  lemma {:induction false} WhereAppend<T(!new)>(a: seq<T>, b: seq<T>, f: T -> bool)
    ensures Where(a + b, f) == Where(a, f) + Where(b, f)
  {
    if a == [] {
      assert a + b == b;
    } else {
      assert (a + b)[1..] == a[1..] + b;
      WhereAppend(a[1..], b, f);
    }
  }

  /** Replacing an element that the filter drops by another it drops changes nothing. */
  lemma {:induction false} WhereUpdateDropped<T(!new)>(s: seq<T>, i: nat, x: T, f: T -> bool)
    requires i < |s| && !f(s[i]) && !f(x)
    ensures Where(s[i := x], f) == Where(s, f)
  {
    if i > 0 {
      assert s[i := x][1..] == s[1..][i - 1 := x];
      WhereUpdateDropped(s[1..], i - 1, x, f);
    }
  }

  /** Lexicographic order on strings by code point, which is how SQLite's default
      BINARY collation orders UTF-8 text. */
  predicate LessEq(a: string, b: string) {
    |a| == 0 || (|b| != 0 && (a[0] < b[0] || (a[0] == b[0] && LessEq(a[1..], b[1..]))))
  }

  lemma {:induction false} LessEqTotal(a: string, b: string)
    ensures LessEq(a, b) || LessEq(b, a)
  {
    if |a| != 0 && |b| != 0 && a[0] == b[0] {
      LessEqTotal(a[1..], b[1..]);
    }
  }

  lemma {:induction false} LessEqTransitive(a: string, b: string, c: string)
    requires LessEq(a, b) && LessEq(b, c)
    ensures LessEq(a, c)
  {
    if |a| != 0 && a[0] == b[0] && b[0] == c[0] {
      LessEqTransitive(a[1..], b[1..], c[1..]);
    }
  }

  lemma {:induction false} LessEqAntisymmetric(a: string, b: string)
    requires LessEq(a, b) && LessEq(b, a)
    ensures a == b
  {
    if |a| != 0 {
      LessEqAntisymmetric(a[1..], b[1..]);
      assert a == [a[0]] + a[1..] && b == [b[0]] + b[1..];
    }
  }

  predicate SortedBy<T>(s: seq<T>, key: T -> string) {
    forall i, j :: 0 <= i < j < |s| ==> LessEq(key(s[i]), key(s[j]))
  }

  /** Inserts `x` before the first element whose key is not below it, so equal keys keep
      their original relative order. */
  function InsertBy<T>(x: T, s: seq<T>, key: T -> string): seq<T> {
    if s == [] then [x]
    else if LessEq(key(x), key(s[0])) then [x] + s
    else [s[0]] + InsertBy(x, s[1..], key)
  }

  /** Every element of the result is `x` or an element of `s`. */
  lemma {:induction false} InsertByElement<T>(x: T, s: seq<T>, key: T -> string, j: nat)
    requires j < |InsertBy(x, s, key)|
    ensures InsertBy(x, s, key)[j] == x || InsertBy(x, s, key)[j] in s
  {
    if s != [] && !LessEq(key(x), key(s[0])) && j > 0 {
      InsertByElement(x, s[1..], key, j - 1);
    }
  }

  lemma {:induction false} InsertByPermutes<T>(x: T, s: seq<T>, key: T -> string)
    ensures multiset(InsertBy(x, s, key)) == multiset{x} + multiset(s)
  {
    if s != [] && !LessEq(key(x), key(s[0])) {
      InsertByPermutes(x, s[1..], key);
      assert s == [s[0]] + s[1..];
    }
  }

  lemma {:induction false} InsertBySorted<T>(x: T, s: seq<T>, key: T -> string)
    requires SortedBy(s, key)
    ensures SortedBy(InsertBy(x, s, key), key)
  {
    if s == [] {
    } else if LessEq(key(x), key(s[0])) {
      forall j | 0 <= j < |s|
        ensures LessEq(key(x), key(s[j]))
      {
        if j > 0 {
          LessEqTransitive(key(x), key(s[0]), key(s[j]));
        }
      }
      var r := [x] + s;
      forall i, j | 0 <= i < j < |r|
        ensures LessEq(key(r[i]), key(r[j]))
      {
        if i > 0 {
          assert r[i] == s[i - 1] && r[j] == s[j - 1];
        }
      }
    } else {
      LessEqTotal(key(x), key(s[0]));
      InsertBySorted(x, s[1..], key);
      var t := InsertBy(x, s[1..], key);
      forall j | 0 <= j < |t|
        ensures LessEq(key(s[0]), key(t[j]))
      {
        InsertByElement(x, s[1..], key, j);
        if t[j] != x {
          var k :| 0 <= k < |s[1..]| && s[1..][k] == t[j];
          assert s[k + 1] == t[j];
        }
      }
      var r := [s[0]] + t;
      forall i, j | 0 <= i < j < |r|
        ensures LessEq(key(r[i]), key(r[j]))
      {
        if i > 0 {
          assert r[i] == t[i - 1] && r[j] == t[j - 1];
        }
      }
    }
  }

  /** Stable insertion sort by `key`: the result is ordered and is a permutation of `s`. */
  function SortBy<T(==)>(s: seq<T>, key: T -> string): (r: seq<T>)
    ensures SortedBy(r, key)
    ensures multiset(r) == multiset(s)
  {
    if s == [] then []
    else
      var rest := SortBy(s[1..], key);
      InsertBySorted(s[0], rest, key);
      InsertByPermutes(s[0], rest, key);
      assert s == [s[0]] + s[1..];
      InsertBy(s[0], rest, key)
  }
}
