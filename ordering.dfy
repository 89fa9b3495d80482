/**
 * ORDER BY over a list of key columns: lexicographic comparison of the key
 * values, and a sort that yields a permutation of its input ordered by key.
 */
module Ordering {
  import opened Values

  /** `ORDER BY k1 ASC, k2 ASC, ...` on the key tuples `a` and `b`. */
  predicate KeysLe(a: seq<Value>, b: seq<Value>)
    decreases |a|
  {
    a == [] || (b != [] && (if a[0] == b[0] then KeysLe(a[1..], b[1..]) else ValueLe(a[0], b[0])))
  }

  lemma {:induction false} KeysLeTotal(a: seq<Value>, b: seq<Value>)
    ensures KeysLe(a, b) || KeysLe(b, a)
    decreases |a|
  {
    if a != [] && b != [] {
      if a[0] == b[0] {
        KeysLeTotal(a[1..], b[1..]);
      } else {
        ValueLeTotal(a[0], b[0]);
      }
    }
  }

  lemma {:induction false} KeysLeTransitive(a: seq<Value>, b: seq<Value>, c: seq<Value>)
    requires KeysLe(a, b) && KeysLe(b, c)
    ensures KeysLe(a, c)
    decreases |a|
  {
    if a != [] {
      if a[0] == b[0] && b[0] == c[0] {
        KeysLeTransitive(a[1..], b[1..], c[1..]);
      } else if a[0] != b[0] && b[0] != c[0] {
        ValueLeTransitive(a[0], b[0], c[0]);
        if a[0] == c[0] {
          ValueLeAntisymmetric(a[0], b[0]);
        }
      }
    }
  }

  /** Two-column keys compare by the first column, then by the second. */
  lemma PairOrder(a1: Value, a2: Value, b1: Value, b2: Value)
    requires KeysLe([a1, a2], [b1, b2])
    ensures ValueLe(a1, b1)
    ensures a1 == b1 ==> ValueLe(a2, b2)
  {
    if a1 == b1 {
      ValueLeReflexive(a1);
      ValueLeReflexive(a2);
      assert [a1, a2][1..] == [a2] && [b1, b2][1..] == [b2];
      assert KeysLe([a2], [b2]) == (a2 == b2 || ValueLe(a2, b2));
    } else {
      assert KeysLe([a1, a2], [b1, b2]) == ValueLe(a1, b1);
    }
  }

  /** Three-column keys compare column by column. */
  lemma TripleOrder(a1: Value, a2: Value, a3: Value, b1: Value, b2: Value, b3: Value)
    requires KeysLe([a1, a2, a3], [b1, b2, b3])
    ensures ValueLe(a1, b1)
    ensures a1 == b1 ==> ValueLe(a2, b2)
    ensures a1 == b1 && a2 == b2 ==> ValueLe(a3, b3)
  {
    if a1 == b1 {
      ValueLeReflexive(a1);
      assert [a1, a2, a3][1..] == [a2, a3] && [b1, b2, b3][1..] == [b2, b3];
      PairOrder(a2, a3, b2, b3);
    } else {
      assert KeysLe([a1, a2, a3], [b1, b2, b3]) == ValueLe(a1, b1);
    }
  }

  ghost predicate SortedBy<T>(s: seq<T>, key: T -> seq<Value>) {
    forall i, j :: 0 <= i < j < |s| ==> KeysLe(key(s[i]), key(s[j]))
  }

  function Insert<T>(x: T, s: seq<T>, key: T -> seq<Value>): (r: seq<T>)
    ensures multiset(r) == multiset(s) + multiset{x}
  {
    if s == [] then [x]
    else if KeysLe(key(x), key(s[0])) then [x] + s
    else
      assert s == [s[0]] + s[1..];
      [s[0]] + Insert(x, s[1..], key)
  }

  /** A row no greater than every row of a sorted list can go in front of it. */
  lemma ConsSorted<T>(y: T, s: seq<T>, key: T -> seq<Value>)
    requires SortedBy(s, key)
    requires forall j :: 0 <= j < |s| ==> KeysLe(key(y), key(s[j]))
    ensures SortedBy([y] + s, key)
  {
    var r := [y] + s;
    forall i, j | 0 <= i < j < |r| ensures KeysLe(key(r[i]), key(r[j])) {
      assert r[j] == s[j - 1];
      if i > 0 {
        assert r[i] == s[i - 1];
      }
    }
  }

  /** A bound below `x` and below every row of `s` is below every row of `Insert(x, s)`. */
  lemma InsertBounded<T>(y: T, x: T, s: seq<T>, key: T -> seq<Value>)
    requires KeysLe(key(y), key(x))
    requires forall j :: 0 <= j < |s| ==> KeysLe(key(y), key(s[j]))
    ensures forall j :: 0 <= j < |Insert(x, s, key)| ==> KeysLe(key(y), key(Insert(x, s, key)[j]))
  {
    var r := Insert(x, s, key);
    forall j | 0 <= j < |r| ensures KeysLe(key(y), key(r[j])) {
      assert r[j] in multiset(r);
      if r[j] != x {
        assert r[j] in multiset(s);
        var k :| 0 <= k < |s| && s[k] == r[j];
      }
    }
  }

  lemma {:induction false} InsertSorted<T>(x: T, s: seq<T>, key: T -> seq<Value>)
    requires SortedBy(s, key)
    ensures SortedBy(Insert(x, s, key), key)
  {
    if s == [] {
    } else if KeysLe(key(x), key(s[0])) {
      forall j | 0 <= j < |s| ensures KeysLe(key(x), key(s[j])) {
        if j > 0 {
          KeysLeTransitive(key(x), key(s[0]), key(s[j]));
        }
      }
      ConsSorted(x, s, key);
    } else {
      var tail := s[1..];
      InsertSorted(x, tail, key);
      KeysLeTotal(key(x), key(s[0]));
      forall j | 0 <= j < |tail| ensures KeysLe(key(s[0]), key(tail[j])) {
        assert tail[j] == s[j + 1];
      }
      InsertBounded(s[0], x, tail, key);
      ConsSorted(s[0], Insert(x, tail, key), key);
    }
  }

  /** The rows of `s`, ordered by `key`; ties keep no promised order. */
  function SortByKey<T>(s: seq<T>, key: T -> seq<Value>): (r: seq<T>)
    ensures multiset(r) == multiset(s)
    ensures SortedBy(r, key)
  {
    if s == [] then []
    else
      var rest := SortByKey(s[1..], key);
      InsertSorted(s[0], rest, key);
      assert s == [s[0]] + s[1..];
      Insert(s[0], rest, key)
  }
}
