/**
 * The in-memory pandas objects, reduced to an abstract labelled matrix:
 * row labels, column labels and one opaque cell per (row, column) pair.
 * Selection keeps the labels that belong to a requested set, in the
 * table's own order.
 */
module Frames {
  import opened Wrappers
  import opened Strings

  /** A cell value; the proxy never looks inside one. */
  type Cell(==)

  datatype Table = Table(rows: seq<string>, cols: seq<string>, cell: map<(string, string), Cell>)

  /** What an indexing call returns: a sub-table (DataFrame) or a
      one-dimensional labelled series (Series). */
  datatype Data = Frame(table: Table) | Series(index: seq<string>, values: seq<Cell>)

  /** Labels are unique, and there is a cell exactly for each pair of a
      row label and a column label. */
  ghost predicate Valid(t: Table) {
    && Distinct(t.rows)
    && Distinct(t.cols)
    && forall r, c :: (r, c) in t.cell <==> r in t.rows && c in t.cols
  }

  function AllOf(s: seq<string>): set<string> {
    set x | x in s
  }

  /** The labels of `s` that belong to `keep`, in the order of `s`. */
  function Filter(s: seq<string>, keep: set<string>): (r: seq<string>)
    ensures forall x :: x in r <==> x in s && x in keep
    ensures |r| <= |s|
  {
    if s == [] then []
    else (if s[0] in keep then [s[0]] else []) + Filter(s[1..], keep)
  }

  lemma {:induction false} FilterDistinct(s: seq<string>, keep: set<string>)
    requires Distinct(s)
    ensures Distinct(Filter(s, keep))
  {
    if s != [] {
      assert Distinct(s[1..]) by {
        forall i, j | 0 <= i < j < |s[1..]| ensures s[1..][i] != s[1..][j] {
          assert s[1..][i] == s[i + 1] && s[1..][j] == s[j + 1];
        }
      }
      FilterDistinct(s[1..], keep);
      var tail := Filter(s[1..], keep);
      assert s[0] !in s[1..] by {
        forall k | 0 <= k < |s[1..]| ensures s[1..][k] != s[0] {
          assert s[1..][k] == s[k + 1];
        }
      }
      assert s[0] !in tail;
    }
  }

  lemma {:induction false} FilterKeepsAll(s: seq<string>, keep: set<string>)
    requires forall x :: x in s ==> x in keep
    ensures Filter(s, keep) == s
  {
    if s != [] {
      assert forall x :: x in s[1..] ==> x in s;
      FilterKeepsAll(s[1..], keep);
      assert [s[0]] + s[1..] == s;
    }
  }

  /** The sub-table of the rows in `rowKeep` and the columns in `colKeep`;
      labels asked for that the table lacks are ignored. */
  function Select(t: Table, rowKeep: set<string>, colKeep: set<string>): (r: Table)
    requires Valid(t)
    ensures Valid(r)
    ensures forall x :: x in r.rows <==> x in t.rows && x in rowKeep
    ensures forall x :: x in r.cols <==> x in t.cols && x in colKeep
    ensures forall p :: p in r.cell ==> p in t.cell && r.cell[p] == t.cell[p]
  {
    FilterDistinct(t.rows, rowKeep);
    FilterDistinct(t.cols, colKeep);
    Table(Filter(t.rows, rowKeep), Filter(t.cols, colKeep),
          map p | p in t.cell && p.0 in rowKeep && p.1 in colKeep :: t.cell[p])
  }

  /** Selecting every row and every column gives the table back. */
  lemma SelectEverything(t: Table)
    requires Valid(t)
    ensures Select(t, AllOf(t.rows), AllOf(t.cols)) == t
  {
    FilterKeepsAll(t.rows, AllOf(t.rows));
    FilterKeepsAll(t.cols, AllOf(t.cols));
    var s := Select(t, AllOf(t.rows), AllOf(t.cols));
    forall p | p in t.cell ensures p in s.cell {
      assert (p.0, p.1) == p;
    }
  }

  /** pandas `frame[c]`: column `c` as a series over the row labels. */
  function Column(t: Table, c: string): (r: Result<Data>)
    requires Valid(t)
    ensures r.Ok? <==> c in t.cols
    ensures r.Err? ==> r.error == KeyError
    ensures r.Ok? ==> r.value.Series? && r.value.index == t.rows && |r.value.values| == |t.rows|
    ensures r.Ok? ==> forall i :: 0 <= i < |t.rows| ==> r.value.values[i] == t.cell[(t.rows[i], c)]
  {
    if c in t.cols then
      Ok(Series(t.rows, seq(|t.rows|, i requires 0 <= i < |t.rows| => t.cell[(t.rows[i], c)])))
    else Err(KeyError)
  }

  /** pandas `frame.loc[x]` for one row label: row `x` as a series over
      the column labels. */
  function Row(t: Table, x: string): (r: Result<Data>)
    requires Valid(t)
    ensures r.Ok? <==> x in t.rows
    ensures r.Err? ==> r.error == KeyError
    ensures r.Ok? ==> r.value.Series? && r.value.index == t.cols && |r.value.values| == |t.cols|
    ensures r.Ok? ==> forall i :: 0 <= i < |t.cols| ==> r.value.values[i] == t.cell[(x, t.cols[i])]
  {
    if x in t.rows then
      Ok(Series(t.cols, seq(|t.cols|, i requires 0 <= i < |t.cols| => t.cell[(x, t.cols[i])])))
    else Err(KeyError)
  }

  /** Narrowing the columns to a set that still holds `c`, and the rows to
      a set that holds them all, does not change column `c`. */
  lemma ColumnOfSelection(t: Table, rowKeep: set<string>, colKeep: set<string>, c: string)
    requires Valid(t)
    requires forall x :: x in t.rows ==> x in rowKeep
    requires c in colKeep
    ensures Column(Select(t, rowKeep, colKeep), c) == Column(t, c)
  {
    FilterKeepsAll(t.rows, rowKeep);
    var s := Select(t, rowKeep, colKeep);
    if c in t.cols {
      var before := Column(t, c).value;
      var after := Column(s, c).value;
      assert after.index == before.index;
      forall i | 0 <= i < |t.rows| ensures after.values[i] == before.values[i] {
        assert (t.rows[i], c) in s.cell;
      }
      assert after.values == before.values;
    }
  }

  /** Narrowing the rows to a set that still holds `x`, and the columns to
      a set that holds them all, does not change row `x`. */
  lemma RowOfSelection(t: Table, rowKeep: set<string>, colKeep: set<string>, x: string)
    requires Valid(t)
    requires x in rowKeep
    requires forall c :: c in t.cols ==> c in colKeep
    ensures Row(Select(t, rowKeep, colKeep), x) == Row(t, x)
  {
    FilterKeepsAll(t.cols, colKeep);
    var s := Select(t, rowKeep, colKeep);
    if x in t.rows {
      var before := Row(t, x).value;
      var after := Row(s, x).value;
      assert after.index == before.index;
      forall i | 0 <= i < |t.cols| ensures after.values[i] == before.values[i] {
        assert (x, t.cols[i]) in s.cell;
      }
      assert after.values == before.values;
    }
  }
}
