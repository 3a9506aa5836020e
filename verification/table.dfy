/**
  A database table as the sequence of its rows, with the three statements the
  repositories issue against it: a keyed lookup, a filtered and ordered SELECT,
  and a filtered DELETE. Row order within equal `ORDER BY` keys is not fixed by
  SQL; the model keeps table order there.
*/
module Table {
  import opened Common
  import opened Ordering

  /** No two rows share a primary key. */
  predicate UniqueKeys<R>(rows: seq<R>, keyOf: R -> string) {
    forall i, j :: 0 <= i < j < |rows| ==> keyOf(rows[i]) != keyOf(rows[j])
  }

  /** `SELECT ... WHERE id = $1` read through `queryOne`: the first row with that key, or null. */
  function Find<R>(rows: seq<R>, keyOf: R -> string, key: string): (r: Option<R>)
    ensures r.Some? ==> keyOf(r.value) == key && exists i :: 0 <= i < |rows| && rows[i] == r.value
    ensures r.None? <==> forall i :: 0 <= i < |rows| ==> keyOf(rows[i]) != key
  {
    if |rows| == 0 then None
    else if keyOf(rows[0]) == key then Some(rows[0])
    else
      var r := Find(rows[1..], keyOf, key);
      if r.Some? then
        ghost var i :| 0 <= i < |rows[1..]| && rows[1..][i] == r.value;
        assert rows[i + 1] == r.value;
        r
      else r
  }

  /** With unique keys, the row found is the one at the position holding that key. */
  lemma FindUnique<R>(rows: seq<R>, keyOf: R -> string, i: nat)
    requires UniqueKeys(rows, keyOf) && i < |rows|
    ensures Find(rows, keyOf, keyOf(rows[i])) == Some(rows[i])
  {
    var r := Find(rows, keyOf, keyOf(rows[i]));
    var j :| 0 <= j < |rows| && rows[j] == r.value;
    assert keyOf(rows[j]) == keyOf(rows[i]);
  }

  /** `SELECT ... WHERE where ORDER BY orderBy`: exactly the matching rows, each as often as stored, in key order. */
  function Select<R(==)>(rows: seq<R>, where: R -> bool, orderBy: R -> SortKey): (r: seq<R>)
    ensures multiset(r) == multiset(Filter(rows, where))
    ensures forall i :: 0 <= i < |r| ==> r[i] in rows && where(r[i])
    ensures forall i :: 0 <= i < |rows| && where(rows[i]) ==> rows[i] in r
    ensures SortedBy(r, orderBy)
  {
    var kept := Filter(rows, where);
    var r := SortBy(kept, orderBy);
    forall i | 0 <= i < |r| ensures r[i] in kept {
      assert r[i] in multiset(r);
    }
    forall i | 0 <= i < |kept| ensures kept[i] in r {
      assert kept[i] in multiset(kept);
    }
    r
  }

  /** Filtering a sorted sequence keeps it sorted: JavaScript's `filter` on an ordered result. */
  lemma {:induction false} FilterKeepsSorted<R>(rows: seq<R>, keep: R -> bool, key: R -> SortKey)
    requires SortedBy(rows, key)
    ensures SortedBy(Filter(rows, keep), key)
  {
    if |rows| > 0 {
      var rest := Filter(rows[1..], keep);
      assert SortedBy(rows[1..], key) by {
        forall i, j | 0 <= i < j < |rows[1..]| ensures KeyCmp(key(rows[1..][i]), key(rows[1..][j])) <= 0 {
          assert rows[1..][i] == rows[i + 1] && rows[1..][j] == rows[j + 1];
        }
      }
      FilterKeepsSorted(rows[1..], keep, key);
      if keep(rows[0]) {
        forall j | 0 <= j < |rest| ensures KeyCmp(key(rows[0]), key(rest[j])) <= 0 {
          var k :| 0 <= k < |rows[1..]| && rows[1..][k] == rest[j];
          assert rows[k + 1] == rest[j];
        }
        ConsSorted(rows[0], rest, key);
      }
    }
  }

  /** `DELETE ... WHERE cond`: the remaining rows in order, and the row count. */
  function DeleteWhere<R(==)>(rows: seq<R>, cond: R -> bool): (r: (seq<R>, nat))
    ensures forall i :: 0 <= i < |r.0| ==> r.0[i] in rows && !cond(r.0[i])
    ensures forall i :: 0 <= i < |rows| && !cond(rows[i]) ==> rows[i] in r.0
    ensures r.1 == CountWhere(rows, cond) && r.1 == |rows| - |r.0|
    ensures r.1 > 0 <==> exists i :: 0 <= i < |rows| && cond(rows[i])
  {
    var rest := Filter(rows, (x: R) => !cond(x));
    DeleteCount(rows, cond);
    (rest, |rows| - |rest|)
  }

  /** The number of deleted rows is the number of rows satisfying the condition. */
  lemma {:induction false} DeleteCount<R>(rows: seq<R>, cond: R -> bool)
    ensures |Filter(rows, (x: R) => !cond(x))| == |rows| - CountWhere(rows, cond)
    ensures CountWhere(rows, cond) > 0 <==> exists i :: 0 <= i < |rows| && cond(rows[i])
  {
    if |rows| > 0 {
      DeleteCount(rows[1..], cond);
      if CountWhere(rows[1..], cond) > 0 {
        var i :| 0 <= i < |rows[1..]| && cond(rows[1..][i]);
        assert cond(rows[i + 1]);
      }
      if exists i :: 0 <= i < |rows| && cond(rows[i]) {
        var i :| 0 <= i < |rows| && cond(rows[i]);
        if i > 0 {
          assert rows[1..][i - 1] == rows[i];
        }
      }
    }
  }

  /** How many rows satisfy `cond`. */
  function CountWhere<R>(rows: seq<R>, cond: R -> bool): (n: nat)
    ensures n <= |rows|
  {
    if |rows| == 0 then 0 else (if cond(rows[0]) then 1 else 0) + CountWhere(rows[1..], cond)
  }
}
