/**
 * In-memory tables: a table is the sequence of its rows. A `db.get` with a
 * WHERE clause reads the first row that satisfies it; an INSERT appends, an
 * UPDATE replaces rows in place and a DELETE removes them. Uniqueness
 * constraints are predicates over the sequence, kept by the check that runs
 * before each write.
 */
module Tables {
  import opened Wrappers

  /** The index of the first row satisfying `p`, or None when no row does. */
  function FindFirst<T>(rows: seq<T>, p: T -> bool): (r: Option<nat>)
    ensures r.Some? ==> r.value < |rows| && p(rows[r.value])
    ensures r.Some? ==> forall j :: 0 <= j < r.value ==> !p(rows[j])
    ensures r.None? <==> forall j :: 0 <= j < |rows| ==> !p(rows[j])
  {
    if rows == [] then None
    else if p(rows[0]) then Some(0)
    else
      match FindFirst(rows[1..], p)
      case None => None
      case Some(k) => Some(k + 1)
  }

  /** No two rows share a key. */
  ghost predicate UniqueBy<T, K>(rows: seq<T>, key: T -> K) {
    forall i, j :: 0 <= i < j < |rows| ==> key(rows[i]) != key(rows[j])
  }

  /** The rows without the one at index `i`, the others in their order. */
  function RemoveAt<T>(rows: seq<T>, i: nat): (r: seq<T>)
    requires i < |rows|
    ensures |r| == |rows| - 1
    ensures forall j :: 0 <= j < i ==> r[j] == rows[j]
    ensures forall j :: i <= j < |r| ==> r[j] == rows[j + 1]
    ensures multiset(r) == multiset(rows) - multiset{rows[i]}
  {
    assert rows == rows[..i] + [rows[i]] + rows[i + 1..];
    rows[..i] + rows[i + 1..]
  }

  /** Under uniqueness a key picks out one row. */
  lemma UniqueKeyIndex<T, K>(rows: seq<T>, key: T -> K, i: nat, j: nat)
    requires UniqueBy(rows, key)
    requires i < |rows| && j < |rows| && key(rows[i]) == key(rows[j])
    ensures i == j
  {
    if i < j || j < i {
      assert false;
    }
  }

  /** Appending a row whose key no row holds keeps the keys unique. */
  lemma AppendKeepsUnique<T, K>(rows: seq<T>, key: T -> K, x: T)
    requires UniqueBy(rows, key)
    requires forall j :: 0 <= j < |rows| ==> key(rows[j]) != key(x)
    ensures UniqueBy(rows + [x], key)
  {
  }

  /** Replacing row `i` by one whose key no other row holds keeps the keys unique. */
  lemma ReplaceKeepsUnique<T, K>(rows: seq<T>, key: T -> K, i: nat, x: T)
    requires UniqueBy(rows, key) && i < |rows|
    requires forall j :: 0 <= j < |rows| && j != i ==> key(rows[j]) != key(x)
    ensures UniqueBy(rows[i := x], key)
  {
  }

  /** Removing a row keeps the keys unique. */
  lemma RemoveKeepsUnique<T, K>(rows: seq<T>, key: T -> K, i: nat)
    requires UniqueBy(rows, key) && i < |rows|
    ensures UniqueBy(RemoveAt(rows, i), key)
  {
    var r := RemoveAt(rows, i);
    forall a, b | 0 <= a < b < |r| ensures key(r[a]) != key(r[b]) {
      var a' := if a < i then a else a + 1;
      var b' := if b < i then b else b + 1;
      assert r[a] == rows[a'] && r[b] == rows[b'] && a' < b';
    }
  }

  /** After removing the only row with key `k`, the remaining rows are exactly those whose key differs from `k`. */
  lemma RemoveUniqueKey<T, K>(rows: seq<T>, key: T -> K, i: nat)
    requires UniqueBy(rows, key) && i < |rows|
    ensures forall x :: x in RemoveAt(rows, i) <==> x in rows && key(x) != key(rows[i])
  {
    var r := RemoveAt(rows, i);
    forall x ensures x in r <==> x in rows && key(x) != key(rows[i]) {
      if x in r {
        var a :| 0 <= a < |r| && r[a] == x;
        var a' := if a < i then a else a + 1;
        assert rows[a'] == x && a' != i;
      }
      if x in rows && key(x) != key(rows[i]) {
        var a :| 0 <= a < |rows| && rows[a] == x;
        assert a != i;
        if a < i { assert r[a] == x; } else { assert r[a - 1] == x; }
      }
    }
  }
}
