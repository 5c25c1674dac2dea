/**
 * Ordering of rows: the stand-in for SQL `ORDER BY` and for JavaScript's
 * `Array.prototype.sort` with a comparator. The sort is an insertion sort that
 * places an element before the first one the comparator does not put before
 * it; whenever the comparator's sign agrees with a transitive relation, the
 * output is ordered by that relation, and it is always a permutation.
 */
module Ordering {

  ghost predicate Transitive<T(!new)>(le: (T, T) -> bool) {
    forall a, b, c :: le(a, b) && le(b, c) ==> le(a, c)
  }

  /** A comparator `cmp` agrees with `le` when `cmp(a, b) <= 0` means `le(a, b)` and `cmp(a, b) > 0` means `le(b, a)`. */
  ghost predicate Agrees<T(!new)>(cmp: (T, T) -> int, le: (T, T) -> bool) {
    forall a, b :: if cmp(a, b) <= 0 then le(a, b) else le(b, a)
  }

  ghost predicate SortedBy<T>(s: seq<T>, le: (T, T) -> bool) {
    forall i, j :: 0 <= i < j < |s| ==> le(s[i], s[j])
  }

  function Insert<T>(x: T, s: seq<T>, cmp: (T, T) -> int): (r: seq<T>)
    ensures multiset(r) == multiset(s) + multiset{x}
  {
    if s == [] || cmp(x, s[0]) <= 0 then [x] + s
    else
      assert s == [s[0]] + s[1..];
      [s[0]] + Insert(x, s[1..], cmp)
  }

  function Sort<T>(s: seq<T>, cmp: (T, T) -> int): (r: seq<T>)
    ensures multiset(r) == multiset(s)
  {
    if s == [] then []
    else
      assert s == [s[0]] + s[1..];
      Insert(s[0], Sort(s[1..], cmp), cmp)
  }

  lemma {:induction false} InsertSorted<T(!new)>(x: T, s: seq<T>, cmp: (T, T) -> int, le: (T, T) -> bool)
    requires Transitive(le) && Agrees(cmp, le)
    requires SortedBy(s, le)
    ensures SortedBy(Insert(x, s, cmp), le)
  {
    if s == [] || cmp(x, s[0]) <= 0 {
    } else {
      var rest := Insert(x, s[1..], cmp);
      InsertSorted(x, s[1..], cmp, le);
      assert le(s[0], x);
      forall k | 0 <= k < |rest|
        ensures le(s[0], rest[k])
      {
        assert rest[k] in multiset(rest);
        if rest[k] != x {
          assert rest[k] in multiset(s[1..]);
          var j :| 0 <= j < |s[1..]| && s[1..][j] == rest[k];
          assert s[1..][j] == s[j + 1];
        }
      }
    }
  }

  /** Sorting orders by every transitive relation the comparator agrees with. */
  lemma {:induction false} SortSorted<T(!new)>(s: seq<T>, cmp: (T, T) -> int, le: (T, T) -> bool)
    requires Transitive(le) && Agrees(cmp, le)
    ensures SortedBy(Sort(s, cmp), le)
  {
    if s != [] {
      SortSorted(s[1..], cmp, le);
      InsertSorted(s[0], Sort(s[1..], cmp), cmp, le);
    }
  }

  /** The comparator of two integers as `a < b ? -1 : a > b ? 1 : 0`. */
  function CompareInt(a: int, b: int): (r: int)
    ensures r < 0 <==> a < b
    ensures r > 0 <==> a > b
  {
    if a < b then -1 else if a > b then 1 else 0
  }

  /**
   * Lexicographic order on code points: SQLite's BINARY collation on UTF-8
   * text, and the concrete total order that stands in for `localeCompare`.
   */
  function LexCompare(a: string, b: string): (r: int)
    ensures -1 <= r <= 1
    ensures r == 0 <==> a == b
  {
    if a == [] && b == [] then 0
    else if a == [] then -1
    else if b == [] then 1
    else if a[0] < b[0] then -1
    else if a[0] > b[0] then 1
    else
      assert a == [a[0]] + a[1..] && b == [b[0]] + b[1..];
      LexCompare(a[1..], b[1..])
  }

  lemma {:induction false} LexAntisymmetric(a: string, b: string)
    ensures LexCompare(a, b) == -LexCompare(b, a)
  {
    if a != [] && b != [] && a[0] == b[0] {
      LexAntisymmetric(a[1..], b[1..]);
    }
  }

  lemma {:induction false} LexTransitive(a: string, b: string, c: string)
    requires LexCompare(a, b) <= 0 && LexCompare(b, c) <= 0
    ensures LexCompare(a, c) <= 0
  {
    if a != [] && b != [] && c != [] && a[0] == b[0] == c[0] {
      LexTransitive(a[1..], b[1..], c[1..]);
    }
  }

  predicate LexLe(a: string, b: string) {
    LexCompare(a, b) <= 0
  }

  /** Lexicographic order is a total preorder (in fact a total order). */
  lemma LexTotalOrder()
    ensures Transitive(LexLe) && Agrees(LexCompare, LexLe)
  {
    forall a, b, c | LexLe(a, b) && LexLe(b, c) ensures LexLe(a, c) {
      LexTransitive(a, b, c);
    }
    forall a, b ensures if LexCompare(a, b) <= 0 then LexLe(a, b) else LexLe(b, a) {
      LexAntisymmetric(a, b);
    }
  }
}
