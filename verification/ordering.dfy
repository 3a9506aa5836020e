/**
  Orderings used by `ORDER BY` clauses and by `Array.sort`: three-way comparators,
  the lexicographic extension of a comparator to sequences (which orders strings
  by code point and multi-column sort keys column by column), and a stable
  insertion sort proved to return a sorted permutation of its input.
*/
module Ordering {

  /** A three-way comparison: negative, zero or positive. */
  type Comparator<!T> = (T, T) -> int

  /** `cmp` is antisymmetric, transitive and returns zero only on equal arguments. */
  ghost predicate IsComparator<T(!new)>(cmp: Comparator<T>) {
    && (forall x, y :: cmp(x, y) == -cmp(y, x))
    && (forall x, y :: cmp(x, y) == 0 ==> x == y)
    && (forall x, y, z :: cmp(x, y) <= 0 && cmp(y, z) <= 0 ==> cmp(x, z) <= 0)
  }

  function IntCmp(a: int, b: int): int {
    if a < b then -1 else if a > b then 1 else 0
  }

  function RealCmp(a: real, b: real): int {
    if a < b then -1 else if a > b then 1 else 0
  }

  function CharCmp(a: char, b: char): int {
    if a < b then -1 else if a > b then 1 else 0
  }

  /** Lexicographic comparison: the first differing position decides, and a proper prefix comes first. */
  function LexCmp<T>(a: seq<T>, b: seq<T>, cmp: Comparator<T>): int
    decreases |a|
  {
    if |a| == 0 && |b| == 0 then 0
    else if |a| == 0 then -1
    else if |b| == 0 then 1
    else if cmp(a[0], b[0]) != 0 then cmp(a[0], b[0])
    else LexCmp(a[1..], b[1..], cmp)
  }

  lemma {:induction false} LexCmpAntisymmetric<T(!new)>(a: seq<T>, b: seq<T>, cmp: Comparator<T>)
    requires IsComparator(cmp)
    ensures LexCmp(a, b, cmp) == -LexCmp(b, a, cmp)
    decreases |a|
  {
    if |a| > 0 && |b| > 0 && cmp(a[0], b[0]) == 0 {
      LexCmpAntisymmetric(a[1..], b[1..], cmp);
    }
  }

  lemma {:induction false} LexCmpZero<T(!new)>(a: seq<T>, b: seq<T>, cmp: Comparator<T>)
    requires IsComparator(cmp)
    requires LexCmp(a, b, cmp) == 0
    ensures a == b
    decreases |a|
  {
    if |a| > 0 && |b| > 0 {
      LexCmpZero(a[1..], b[1..], cmp);
      assert a == [a[0]] + a[1..];
      assert b == [b[0]] + b[1..];
    }
  }

  lemma {:induction false} LexCmpTransitive<T(!new)>(a: seq<T>, b: seq<T>, c: seq<T>, cmp: Comparator<T>)
    requires IsComparator(cmp)
    requires LexCmp(a, b, cmp) <= 0 && LexCmp(b, c, cmp) <= 0
    ensures LexCmp(a, c, cmp) <= 0
    decreases |a|
  {
    if |a| > 0 && |b| > 0 && |c| > 0 {
      if cmp(a[0], b[0]) == 0 && cmp(b[0], c[0]) == 0 {
        assert a[0] == b[0] == c[0];
        LexCmpTransitive(a[1..], b[1..], c[1..], cmp);
      }
    }
  }

  /** Strings compare code point by code point, a proper prefix first. */
  function StrCmp(a: string, b: string): int {
    LexCmp(a, b, CharCmp)
  }

  lemma StrCmpIsComparator()
    ensures IsComparator(StrCmp)
  {
    assert IsComparator(CharCmp);
    forall a: string, b: string ensures StrCmp(a, b) == -StrCmp(b, a) {
      LexCmpAntisymmetric(a, b, CharCmp);
    }
    forall a: string, b: string | StrCmp(a, b) == 0 ensures a == b {
      LexCmpZero(a, b, CharCmp);
    }
    forall a: string, b: string, c: string | StrCmp(a, b) <= 0 && StrCmp(b, c) <= 0
      ensures StrCmp(a, c) <= 0
    {
      LexCmpTransitive(a, b, c, CharCmp);
    }
  }

  /** One column of an `ORDER BY` clause, with its direction. */
  datatype KeyPart =
    | IntAsc(i: int)
    | IntDesc(i: int)
    | RealAsc(x: real)
    | RealDesc(x: real)
    | TextAsc(s: string)
  {
    function Tag(): nat {
      match this
      case IntAsc(_) => 0
      case IntDesc(_) => 1
      case RealAsc(_) => 2
      case RealDesc(_) => 3
      case TextAsc(_) => 4
    }
  }

  /** Columns are compared in their own direction; parts of different shapes are ordered by shape. */
  function PartCmp(a: KeyPart, b: KeyPart): int {
    if a.Tag() != b.Tag() then IntCmp(a.Tag(), b.Tag())
    else match a
      case IntAsc(x) => IntCmp(x, b.i)
      case IntDesc(x) => IntCmp(b.i, x)
      case RealAsc(x) => RealCmp(x, b.x)
      case RealDesc(x) => RealCmp(b.x, x)
      case TextAsc(x) => StrCmp(x, b.s)
  }

  lemma PartCmpIsComparator()
    ensures IsComparator(PartCmp)
  {
    StrCmpIsComparator();
    forall a, b ensures PartCmp(a, b) == -PartCmp(b, a) {
      if a.Tag() == b.Tag() && a.TextAsc? {
        assert StrCmp(a.s, b.s) == -StrCmp(b.s, a.s);
      }
    }
    forall a, b | PartCmp(a, b) == 0 ensures a == b {
      if a.TextAsc? && b.TextAsc? {
        assert StrCmp(a.s, b.s) == 0;
      }
    }
    forall a, b, c | PartCmp(a, b) <= 0 && PartCmp(b, c) <= 0 ensures PartCmp(a, c) <= 0 {
      if a.TextAsc? && b.TextAsc? && c.TextAsc? {
        assert StrCmp(a.s, b.s) <= 0 && StrCmp(b.s, c.s) <= 0;
      }
    }
  }

  /** A full `ORDER BY` key: its columns, most significant first. */
  type SortKey = seq<KeyPart>

  function KeyCmp(a: SortKey, b: SortKey): int {
    LexCmp(a, b, PartCmp)
  }

  lemma KeyCmpAntisymmetric(a: SortKey, b: SortKey)
    ensures KeyCmp(a, b) == -KeyCmp(b, a)
  {
    PartCmpIsComparator();
    LexCmpAntisymmetric(a, b, PartCmp);
  }

  lemma KeyCmpTransitive(a: SortKey, b: SortKey, c: SortKey)
    requires KeyCmp(a, b) <= 0 && KeyCmp(b, c) <= 0
    ensures KeyCmp(a, c) <= 0
  {
    PartCmpIsComparator();
    LexCmpTransitive(a, b, c, PartCmp);
  }

  lemma KeyCmpIsComparator()
    ensures IsComparator(KeyCmp)
  {
    forall a, b ensures KeyCmp(a, b) == -KeyCmp(b, a) {
      KeyCmpAntisymmetric(a, b);
    }
    forall a, b | KeyCmp(a, b) == 0 ensures a == b {
      PartCmpIsComparator();
      LexCmpZero(a, b, PartCmp);
    }
    forall a, b, c | KeyCmp(a, b) <= 0 && KeyCmp(b, c) <= 0 ensures KeyCmp(a, c) <= 0 {
      KeyCmpTransitive(a, b, c);
    }
  }

  /** `s` is in non-decreasing order of `key`. */
  ghost predicate SortedBy<T>(s: seq<T>, key: T -> SortKey) {
    forall i, j :: 0 <= i < j < |s| ==> KeyCmp(key(s[i]), key(s[j])) <= 0
  }

  /** Inserts `x` after every element whose key is not greater than its own. */
  function Insert<T>(s: seq<T>, x: T, key: T -> SortKey): (r: seq<T>)
    ensures |r| == |s| + 1
    ensures multiset(r) == multiset(s) + multiset{x}
    ensures forall i :: 0 <= i < |r| ==> r[i] == x || r[i] in s
  {
    if |s| == 0 then [x]
    else if KeyCmp(key(x), key(s[0])) < 0 then [x] + s
    else
      var r := [s[0]] + Insert(s[1..], x, key);
      assert s == [s[0]] + s[1..];
      r
  }

  /** Prepending an element no greater than any other keeps a sequence sorted. */
  lemma ConsSorted<R>(x: R, s: seq<R>, key: R -> SortKey)
    requires SortedBy(s, key)
    requires forall j :: 0 <= j < |s| ==> KeyCmp(key(x), key(s[j])) <= 0
    ensures SortedBy([x] + s, key)
  {
    var r := [x] + s;
    forall i, j | 0 <= i < j < |r| ensures KeyCmp(key(r[i]), key(r[j])) <= 0 {
      if i == 0 {
        assert r[j] == s[j - 1];
      } else {
        assert r[i] == s[i - 1] && r[j] == s[j - 1];
      }
    }
  }

  lemma {:induction false} InsertSorted<T>(s: seq<T>, x: T, key: T -> SortKey)
    requires SortedBy(s, key)
    ensures SortedBy(Insert(s, x, key), key)
  {
    if |s| > 0 {
      if KeyCmp(key(x), key(s[0])) < 0 {
        forall j | 0 <= j < |s| ensures KeyCmp(key(x), key(s[j])) <= 0 {
          if j > 0 {
            KeyCmpTransitive(key(x), key(s[0]), key(s[j]));
          }
        }
        ConsSorted(x, s, key);
      } else {
        var tail := Insert(s[1..], x, key);
        assert SortedBy(s[1..], key) by {
          forall i, j | 0 <= i < j < |s[1..]| ensures KeyCmp(key(s[1..][i]), key(s[1..][j])) <= 0 {
            assert s[1..][i] == s[i + 1] && s[1..][j] == s[j + 1];
          }
        }
        InsertSorted(s[1..], x, key);
        KeyCmpAntisymmetric(key(x), key(s[0]));
        forall j | 0 <= j < |tail| ensures KeyCmp(key(s[0]), key(tail[j])) <= 0 {
          if tail[j] != x {
            var k :| 0 <= k < |s[1..]| && s[1..][k] == tail[j];
            assert s[1..][k] == s[k + 1];
          }
        }
        ConsSorted(s[0], tail, key);
      }
    }
  }

  /** A stable insertion sort, as `Array.sort` (stable since ECMAScript 2019) is for a comparator. */
  function SortBy<T>(s: seq<T>, key: T -> SortKey): (r: seq<T>)
    ensures |r| == |s|
    ensures multiset(r) == multiset(s)
    ensures SortedBy(r, key)
  {
    if |s| == 0 then []
    else
      var init := s[..|s| - 1];
      assert s == init + [s[|s| - 1]];
      InsertSorted(SortBy(init, key), s[|s| - 1], key);
      Insert(SortBy(init, key), s[|s| - 1], key)
  }
}
