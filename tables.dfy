/**
 * What the relational store does with one statement over one table: the
 * rows a WHERE clause selects, DELETE and UPDATE.  Each is one atomic step:
 * the repository assigns its result to the table in a single statement.
 */
module Tables {

  /** SELECT * ... WHERE p: the matching rows, in table order. */
  function Where<T(!new)>(rows: seq<T>, p: T -> bool): (r: seq<T>)
    ensures forall k :: 0 <= k < |r| ==> p(r[k]) && r[k] in rows
    ensures |r| > 0 <==> exists k :: 0 <= k < |rows| && p(rows[k])
  {
    if rows == [] then []
    else
      assert rows == [rows[0]] + rows[1..];
      if p(rows[0]) then [rows[0]] + Where(rows[1..], p) else Where(rows[1..], p)
  }

  /** The selection holds every matching row as often as the table does, and nothing else. */
  lemma {:induction false} WhereCount<T(!new)>(rows: seq<T>, p: T -> bool)
    ensures forall x :: multiset(Where(rows, p))[x] == if p(x) then multiset(rows)[x] else 0
  {
    if rows != [] {
      WhereCount(rows[1..], p);
      assert rows == [rows[0]] + rows[1..];
    }
  }

  /** DELETE ... WHERE p: exactly the rows that do not match remain, in order. */
  function DeleteWhere<T(!new)>(rows: seq<T>, p: T -> bool): (r: seq<T>)
    ensures forall x :: multiset(r)[x] == if p(x) then 0 else multiset(rows)[x]
    ensures forall k :: 0 <= k < |r| ==> !p(r[k]) && r[k] in rows
    ensures |r| <= |rows|
  {
    if rows == [] then []
    else
      assert rows == [rows[0]] + rows[1..];
      if p(rows[0]) then DeleteWhere(rows[1..], p) else [rows[0]] + DeleteWhere(rows[1..], p)
  }

  /** UPDATE ... SET f WHERE p: every matching row becomes `f` of itself, the others stay. */
  function UpdateWhere<T>(rows: seq<T>, p: T -> bool, f: T -> T): (r: seq<T>)
    ensures |r| == |rows|
    ensures forall k :: 0 <= k < |rows| && !p(rows[k]) ==> r[k] == rows[k]
    ensures forall k :: 0 <= k < |rows| && p(rows[k]) ==> r[k] == f(rows[k])
  {
    seq(|rows|, k requires 0 <= k < |rows| => if p(rows[k]) then f(rows[k]) else rows[k])
  }

  /** An UPDATE of a non-empty table is the UPDATE of its first row followed by that of the rest. */
  lemma UpdateWhereCons<T>(rows: seq<T>, p: T -> bool, f: T -> T)
    requires rows != []
    ensures UpdateWhere(rows, p, f) == [if p(rows[0]) then f(rows[0]) else rows[0]] + UpdateWhere(rows[1..], p, f)
  {
  }

  /**
   * After an UPDATE the table holds the rows the WHERE clause does not
   * match, each as often as before, and the SET image of each matching row.
   */
  lemma {:induction false} UpdateWhereCount<T(!new)>(rows: seq<T>, p: T -> bool, f: T -> T)
    ensures multiset(UpdateWhere(rows, p, f)) == multiset(DeleteWhere(rows, p)) + multiset(MapRows(Where(rows, p), f))
  {
    if rows != [] {
      var h, tail := rows[0], rows[1..];
      UpdateWhereCons(rows, p, f);
      UpdateWhereCount(tail, p, f);
      SplitCons(rows, p, f);
      var u := if p(h) then f(h) else h;
      assert multiset(UpdateWhere(rows, p, f)) == multiset([u]) + multiset(UpdateWhere(tail, p, f));
    }
  }

  /** How the first row of a table splits between the rows a DELETE keeps and the SET images of an UPDATE. */
  lemma SplitCons<T(!new)>(rows: seq<T>, p: T -> bool, f: T -> T)
    requires rows != []
    ensures p(rows[0]) ==> DeleteWhere(rows, p) == DeleteWhere(rows[1..], p)
    ensures p(rows[0]) ==> MapRows(Where(rows, p), f) == [f(rows[0])] + MapRows(Where(rows[1..], p), f)
    ensures !p(rows[0]) ==> DeleteWhere(rows, p) == [rows[0]] + DeleteWhere(rows[1..], p)
    ensures !p(rows[0]) ==> MapRows(Where(rows, p), f) == MapRows(Where(rows[1..], p), f)
  {
    assert rows == [rows[0]] + rows[1..];
    if p(rows[0]) {
      assert Where(rows, p) == [rows[0]] + Where(rows[1..], p);
    }
  }

  /**
   * A selection `q` that matches neither a row the UPDATE rewrites nor any
   * row it writes sees the same rows, in the same order, before and after.
   */
  lemma {:induction false} UpdateWhereOtherSelections<T(!new)>(rows: seq<T>, p: T -> bool, f: T -> T, q: T -> bool)
    requires forall x :: p(x) ==> !q(x)
    requires forall x :: !q(f(x))
    ensures Where(UpdateWhere(rows, p, f), q) == Where(rows, q)
  {
    if rows != [] {
      var r := UpdateWhere(rows, p, f);
      UpdateWhereCons(rows, p, f);
      UpdateWhereOtherSelections(rows[1..], p, f, q);
      assert r[1..] == UpdateWhere(rows[1..], p, f);
    }
  }

  /** Mapping a non-empty table maps its first row and then the rest. */
  lemma MapRowsCons<T, U>(rows: seq<T>, f: T -> U)
    requires rows != []
    ensures MapRows(rows, f) == [f(rows[0])] + MapRows(rows[1..], f)
  {
  }

  /** `f` applied to a row the table holds `n` times occurs `n` times in the mapped rows, when no other row maps to the same value. */
  lemma {:induction false} MapRowsCount<T, U>(rows: seq<T>, f: T -> U, x: T)
    requires forall k :: 0 <= k < |rows| && f(rows[k]) == f(x) ==> rows[k] == x
    ensures multiset(MapRows(rows, f))[f(x)] == multiset(rows)[x]
  {
    if rows != [] {
      var tail := rows[1..];
      assert forall k :: 0 <= k < |tail| ==> tail[k] == rows[k + 1];
      MapRowsCount(tail, f, x);
      assert rows == [rows[0]] + tail;
      MapRowsCons(rows, f);
      assert multiset(MapRows(rows, f)) == multiset([f(rows[0])]) + multiset(MapRows(tail, f));
      assert multiset(rows) == multiset([rows[0]]) + multiset(tail);
      assert f(rows[0]) == f(x) <==> rows[0] == x;
    }
  }

  /** A DELETE removes some row exactly when its WHERE clause matches one. */
  lemma {:induction false} DeleteWhereShrinks<T(!new)>(rows: seq<T>, p: T -> bool)
    ensures |DeleteWhere(rows, p)| < |rows| <==> exists k :: 0 <= k < |rows| && p(rows[k])
  {
    if rows != [] {
      var tail := rows[1..];
      DeleteWhereShrinks(tail, p);
      if !p(rows[0]) && exists k :: 0 <= k < |rows| && p(rows[k]) {
        var k :| 0 <= k < |rows| && p(rows[k]);
        assert tail[k - 1] == rows[k];
      }
      if exists k :: 0 <= k < |tail| && p(tail[k]) {
        var k :| 0 <= k < |tail| && p(tail[k]);
        assert rows[k + 1] == tail[k];
      }
    }
  }

  /** An UPDATE whose WHERE clause matches no row leaves the table as it was. */
  lemma UpdateNoMatch<T>(rows: seq<T>, p: T -> bool, f: T -> T)
    requires forall k :: 0 <= k < |rows| ==> !p(rows[k])
    ensures UpdateWhere(rows, p, f) == rows
  {
  }

  /** A row the WHERE clause does not match survives the DELETE. */
  lemma {:induction false} DeleteWhereKeeps<T(!new)>(rows: seq<T>, p: T -> bool, k: int)
    requires 0 <= k < |rows| && !p(rows[k])
    ensures rows[k] in DeleteWhere(rows, p)
  {
    if k > 0 {
      DeleteWhereKeeps(rows[1..], p, k - 1);
    }
  }

  /** Two WHERE clauses that agree on every row delete the same rows. */
  lemma {:induction false} DeleteWhereSame<T(!new)>(rows: seq<T>, p: T -> bool, q: T -> bool)
    requires forall x :: p(x) == q(x)
    ensures DeleteWhere(rows, p) == DeleteWhere(rows, q)
  {
    if rows != [] {
      DeleteWhereSame(rows[1..], p, q);
    }
  }

  /** Two WHERE clauses that agree on every row update the same rows. */
  lemma UpdateWhereSame<T>(rows: seq<T>, p: T -> bool, q: T -> bool, f: T -> T)
    requires forall x :: p(x) == q(x)
    ensures UpdateWhere(rows, p, f) == UpdateWhere(rows, q, f)
  {
  }

  /** Every row satisfies `p`, as a CHECK constraint would. */
  ghost predicate Every<T>(rows: seq<T>, p: T -> bool) {
    forall k :: 0 <= k < |rows| ==> p(rows[k])
  }

  /** An INSERT of a row that satisfies the constraint keeps it. */
  lemma EverySnoc<T>(rows: seq<T>, x: T, p: T -> bool)
    requires Every(rows, p) && p(x)
    ensures Every(rows + [x], p)
  {
    var r := rows + [x];
    forall k | 0 <= k < |r| ensures p(r[k]) {
      if k < |rows| {
        assert r[k] == rows[k];
      }
    }
  }

  /** A DELETE keeps a constraint every row satisfied. */
  lemma EveryDelete<T(!new)>(rows: seq<T>, q: T -> bool, p: T -> bool)
    requires Every(rows, p)
    ensures Every(DeleteWhere(rows, q), p)
  {
    var r := DeleteWhere(rows, q);
    forall k | 0 <= k < |r| ensures p(r[k]) {
      var j :| 0 <= j < |rows| && rows[j] == r[k];
    }
  }

  /** An UPDATE whose assignment keeps the constraint keeps it for the table. */
  lemma EveryUpdate<T>(rows: seq<T>, q: T -> bool, f: T -> T, p: T -> bool)
    requires Every(rows, p)
    requires forall x :: p(x) ==> p(f(x))
    ensures Every(UpdateWhere(rows, q, f), p)
  {
  }

  /** A constraint every row satisfies implies any weaker one. */
  lemma EveryWeaker<T>(rows: seq<T>, p: T -> bool, p2: T -> bool)
    requires Every(rows, p)
    requires forall x :: p(x) ==> p2(x)
    ensures Every(rows, p2)
  {
  }

  /** `rel` holds from every row of `rows` to each later one. */
  ghost predicate Pairwise<T>(rows: seq<T>, rel: (T, T) -> bool) {
    forall i, j :: 0 <= i < j < |rows| ==> rel(rows[i], rows[j])
  }

  /** In a table where `rel` holds from every row to each later one, it holds from the first row to every other. */
  lemma HeadRelatesToTail<T>(rows: seq<T>, rel: (T, T) -> bool)
    requires rows != [] && Pairwise(rows, rel)
    ensures Pairwise(rows[1..], rel)
    ensures forall y :: y in rows[1..] ==> rel(rows[0], y)
  {
    forall y | y in rows[1..] ensures rel(rows[0], y) {
      var k :| 0 <= k < |rows[1..]| && rows[1..][k] == y;
      assert rows[k + 1] == y;
    }
    var tail := rows[1..];
    forall i, j | 0 <= i < j < |tail| ensures rel(tail[i], tail[j]) {
      assert tail[i] == rows[i + 1] && tail[j] == rows[j + 1];
    }
  }

  /** A row related to every row of a pairwise table can be put in front of it. */
  lemma PairwiseCons<T>(x: T, rows: seq<T>, rel: (T, T) -> bool)
    requires Pairwise(rows, rel)
    requires forall y :: y in rows ==> rel(x, y)
    ensures Pairwise([x] + rows, rel)
  {
    var r := [x] + rows;
    forall i, j | 0 <= i < j < |r| ensures rel(r[i], r[j]) {
      assert r[j] == rows[j - 1];
      if i > 0 {
        assert r[i] == rows[i - 1];
      }
    }
  }

  /** A relation that holds from every row to each later one still does after a DELETE. */
  lemma {:induction false} DeleteWherePairwise<T(!new)>(rows: seq<T>, p: T -> bool, rel: (T, T) -> bool)
    requires Pairwise(rows, rel)
    ensures Pairwise(DeleteWhere(rows, p), rel)
  {
    if rows != [] {
      var tail := rows[1..];
      HeadRelatesToTail(rows, rel);
      DeleteWherePairwise(tail, p, rel);
      if !p(rows[0]) {
        PairwiseCons(rows[0], DeleteWhere(tail, p), rel);
      }
    }
  }

  /** A row appended after a pairwise table, related to every row before it, keeps it pairwise. */
  lemma PairwiseSnoc<T>(rows: seq<T>, x: T, rel: (T, T) -> bool)
    requires Pairwise(rows, rel)
    requires forall k :: 0 <= k < |rows| ==> rel(rows[k], x)
    ensures Pairwise(rows + [x], rel)
  {
    var r := rows + [x];
    forall i, j | 0 <= i < j < |r| ensures rel(r[i], r[j]) {
      assert r[i] == rows[i];
      if j < |rows| {
        assert r[j] == rows[j];
      }
    }
  }

  lemma LeftUnchanged<T>(p: T -> bool, f: T -> T, rel: (T, T) -> bool, x: T, y: T)
    requires forall x, y :: p(x) ==> rel(f(x), y) == rel(x, y)
    requires p(x)
    ensures rel(f(x), y) == rel(x, y)
  {
  }

  /** An UPDATE that does not change how matching rows relate to the others keeps a table pairwise. */
  lemma UpdateWherePairwise<T>(rows: seq<T>, p: T -> bool, f: T -> T, rel: (T, T) -> bool)
    requires Pairwise(rows, rel)
    requires forall x, y :: p(x) ==> rel(f(x), y) == rel(x, y)
    requires forall x, y :: p(x) ==> rel(y, f(x)) == rel(y, x)
    ensures Pairwise(UpdateWhere(rows, p, f), rel)
  {
    var r := UpdateWhere(rows, p, f);
    forall i, j | 0 <= i < j < |r| ensures rel(r[i], r[j]) {
      var a, b := rows[i], rows[j];
      assert rel(a, b);
      if p(a) && p(b) {
        LeftUnchanged(p, f, rel, a, f(b));
      } else if p(a) {
        assert rel(f(a), b) == rel(a, b);
      } else if p(b) {
        assert rel(a, f(b)) == rel(a, b);
      }
    }
  }

  /** The rows an INSERT leaves a WHERE clause selecting: the old selection, then the new row if it matches. */
  lemma {:induction false} WhereSnoc<T(!new)>(rows: seq<T>, x: T, p: T -> bool)
    ensures Where(rows + [x], p) == Where(rows, p) + (if p(x) then [x] else [])
  {
    var tail := if p(x) then [x] else [];
    if rows == [] {
      assert [x][1..] == [];
      assert Where([x], p) == (if p(x) then [x] + Where([], p) else Where([], p));
      assert rows + [x] == [x];
    } else {
      var s := rows + [x];
      assert s[0] == rows[0];
      assert s[1..] == rows[1..] + [x];
      WhereSnoc(rows[1..], x, p);
      if p(rows[0]) {
        var w := Where(rows[1..], p);
        assert Where(s, p) == [rows[0]] + (w + tail);
        assert Where(rows, p) == [rows[0]] + w;
        assert [rows[0]] + (w + tail) == ([rows[0]] + w) + tail;
      } else {
        calc {
          Where(s, p);
          Where(rows[1..] + [x], p);
          Where(rows[1..], p) + tail;
          Where(rows, p) + tail;
        }
      }
    }
  }

  /** Each row of a result set turned into a record, in the same order. */
  function MapRows<T, U>(rows: seq<T>, f: T -> U): (r: seq<U>)
    ensures |r| == |rows|
    ensures forall k :: 0 <= k < |rows| ==> r[k] == f(rows[k])
  {
    seq(|rows|, k requires 0 <= k < |rows| => f(rows[k]))
  }
}
