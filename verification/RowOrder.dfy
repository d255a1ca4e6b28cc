/** ORDER BY over a table: rows ordered by an integer column and then by their key,
    and a loop that returns the rows of a set in that order. */
module RowOrder {
  /** `x` comes strictly before `y` when the column ascends and ties go to the smaller
      (`ascending`) or the larger key. */
  predicate Before(x: nat, y: nat, column: nat -> int, ascending: bool) {
    || column(x) < column(y)
    || (column(x) == column(y) && if ascending then x < y else x > y)
  }

  lemma {:induction false} FirstExists(s: set<nat>, column: nat -> int, ascending: bool) returns (first: nat)
    requires s != {}
    ensures first in s && forall y :: y in s && y != first ==> Before(first, y, column, ascending)
    decreases |s|
  {
    var x :| x in s;
    first := x;
    var rest := s - {x};
    if rest != {} {
      var least := FirstExists(rest, column, ascending);
      if Before(least, x, column, ascending) { first := least; }
      forall y | y in s && y != first ensures Before(first, y, column, ascending) {
        assert y == x || y in rest;
      }
    }
  }

  ghost predicate Ordered(rows: seq<nat>, column: nat -> int, ascending: bool) {
    forall i, j :: 0 <= i < j < |rows| ==> Before(rows[i], rows[j], column, ascending)
  }

  /** SELECT ... ORDER BY ... LIMIT: the first `limit` members of `s`, in order. */
  method SelectOrdered(s: set<nat>, limit: nat, column: nat -> int, ascending: bool) returns (rows: seq<nat>)
    ensures Ordered(rows, column, ascending)
    ensures forall x :: x in rows ==> x in s
    ensures forall x, y :: x in rows && y in s && y !in rows ==> Before(x, y, column, ascending)
    ensures |rows| == if limit <= |s| then limit else |s|
    ensures |s| <= limit ==> forall x :: x in s ==> x in rows
  {
    rows := [];
    var rest := s;
    while |rows| < limit && rest != {}
      invariant rest <= s && |rows| + |rest| == |s| && |rows| <= limit
      invariant forall x :: x in s <==> x in rows || x in rest
      invariant forall x :: x in rows ==> x !in rest
      invariant Ordered(rows, column, ascending)
      invariant forall x, y :: x in rows && y in rest ==> Before(x, y, column, ascending)
      decreases rest
    {
      ghost var least := FirstExists(rest, column, ascending);
      var first :| first in rest && forall y :: y in rest && y != first ==> Before(first, y, column, ascending);
      rows := rows + [first];
      rest := rest - {first};
    }
  }

  lemma OrderedIsDistinct(rows: seq<nat>, column: nat -> int, ascending: bool)
    requires Ordered(rows, column, ascending)
    ensures forall i, j :: 0 <= i < j < |rows| ==> rows[i] != rows[j]
  {
    forall i, j | 0 <= i < j < |rows| ensures rows[i] != rows[j] {
      assert Before(rows[i], rows[j], column, ascending);
    }
  }
}
