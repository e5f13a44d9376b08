/**
 * The pandas DataFrame the core works on: ordered, unique column names, one
 * dtype tag per column (float64, int64 or object) and rows of cells, where a
 * cell is missing (NaN) or holds a number or a text.  `Frame` is the value;
 * `Table` is the object that the preprocessing mutates in place.
 */
module Frames {
  import opened Wrappers
  import Stats

  datatype Value = Num(n: real) | Str(s: string)

  /** A cell: `None` is pandas' missing marker (NaN). */
  type Cell = Option<Value>

  /** The column dtype: float64, int64 or anything else (object). */
  datatype ColType = Real | Int | Text {
    /** The dtype test `dtype in ['float64', 'int64']`. */
    predicate IsNumeric() { this != Text }
  }

  datatype Frame = Frame(columns: seq<string>, types: seq<ColType>, rows: seq<seq<Cell>>)

  predicate NoDup<T(==)>(s: seq<T>)
  {
    forall i, j :: 0 <= i < j < |s| ==> s[i] != s[j]
  }

  /** A row has one cell per column, and numeric columns hold numbers or nothing. */
  predicate RowFits(types: seq<ColType>, row: seq<Cell>)
  {
    |row| == |types| &&
    forall j :: 0 <= j < |row| && types[j].IsNumeric() ==> row[j].None? || row[j].value.Num?
  }

  predicate WellFormed(f: Frame)
  {
    && |f.types| == |f.columns|
    && NoDup(f.columns)
    && forall i :: 0 <= i < |f.rows| ==> RowFits(f.types, f.rows[i])
  }

  /** `df.empty`: true when either axis has length zero. */
  predicate IsEmpty(f: Frame)
  {
    |f.rows| == 0 || |f.columns| == 0
  }

  /** `df.head(n)`: the first `n` rows, or all of them when there are fewer. */
  function Head(f: Frame, n: nat): (r: Frame)
    ensures r.columns == f.columns && r.types == f.types
    ensures |r.rows| <= n && |r.rows| <= |f.rows|
    ensures |r.rows| == n || r.rows == f.rows
    ensures r.rows == f.rows[..|r.rows|]
  {
    if |f.rows| <= n then f else f.(rows := f.rows[..n])
  }

  /** Position of a column name (`columns.get_loc`). */
  function IndexOf(cols: seq<string>, c: string): (k: nat)
    requires c in cols
    ensures k < |cols| && cols[k] == c
    ensures forall i :: 0 <= i < k ==> cols[i] != c
  {
    if cols[0] == c then 0 else 1 + IndexOf(cols[1..], c)
  }

  /** Positions of several column names, in the order given. */
  function Indices(cols: seq<string>, names: seq<string>): (r: seq<nat>)
    requires forall k :: 0 <= k < |names| ==> names[k] in cols
    ensures |r| == |names|
    ensures forall k :: 0 <= k < |r| ==> r[k] < |cols| && cols[r[k]] == names[k]
  {
    seq(|names|, k requires 0 <= k < |names| => IndexOf(cols, names[k]))
  }

  /** The cells of column `j`, top to bottom. */
  function Column(f: Frame, j: nat): (col: seq<Cell>)
    requires WellFormed(f) && j < |f.columns|
    ensures |col| == |f.rows|
    ensures forall i :: 0 <= i < |f.rows| ==> col[i] == f.rows[i][j]
  {
    seq(|f.rows|, i requires 0 <= i < |f.rows| => f.rows[i][j])
  }

  /** The numbers among the present cells of a column, in order (what `mean`/`median` see). */
  function PresentNums(col: seq<Cell>): seq<real>
  {
    if col == [] then [] else NumOf(col[0]) + PresentNums(col[1..])
  }

  /** The number a cell contributes to a statistic: none when missing or text. */
  function NumOf(c: Cell): (r: seq<real>)
    ensures |r| <= 1
  {
    if c.Some? && c.value.Num? then [c.value.n] else []
  }

  /** Number of missing cells of a column. */
  function CountMissing(col: seq<Cell>): nat
  {
    if col == [] then 0 else (if col[0].None? then 1 else 0) + CountMissing(col[1..])
  }

  /** `Series.fillna(v)`: every missing cell becomes `v`. */
  function FillCells(col: seq<Cell>, v: Value): (r: seq<Cell>)
    ensures |r| == |col|
    ensures forall i :: 0 <= i < |col| ==> r[i] == if col[i].None? then Some(v) else col[i]
  {
    seq(|col|, i requires 0 <= i < |col| => if col[i].None? then Some(v) else col[i])
  }

  // ---------------------------------------------------------------------------
  // Dropping rows with missing values (`dropna(subset=...)`)

  /** No cell at the given positions is missing. */
  predicate Complete(row: seq<Cell>, idx: seq<nat>)
  {
    forall k :: 0 <= k < |idx| ==> idx[k] < |row| && row[idx[k]].Some?
  }

  /** The rows with no missing value at the given positions, in their original order. */
  function KeepComplete(rows: seq<seq<Cell>>, idx: seq<nat>): (r: seq<seq<Cell>>)
    ensures |r| <= |rows|
    ensures forall x :: x in r ==> x in rows && Complete(x, idx)
  {
    if rows == [] then []
    else (if Complete(rows[0], idx) then [rows[0]] else []) + KeepComplete(rows[1..], idx)
  }

  /** Number of rows with a missing value at one of the given positions. */
  function CountIncomplete(rows: seq<seq<Cell>>, idx: seq<nat>): nat
  {
    if rows == [] then 0
    else (if Complete(rows[0], idx) then 0 else 1) + CountIncomplete(rows[1..], idx)
  }

  /**
   * Each row is kept as often as it occurs when it is complete, and never
   * otherwise: the filter keeps exactly the complete rows.
   */
  lemma {:induction false} KeepCompleteOccurrences(rows: seq<seq<Cell>>, idx: seq<nat>, x: seq<Cell>)
    ensures multiset(KeepComplete(rows, idx))[x] == if Complete(x, idx) then multiset(rows)[x] else 0
  {
    if rows != [] {
      KeepCompleteOccurrences(rows[1..], idx, x);
      assert rows == [rows[0]] + rows[1..];
    }
  }

  /** The number of rows kept is the number of rows minus the rows flagged as incomplete. */
  lemma {:induction false} KeepCompleteCount(rows: seq<seq<Cell>>, idx: seq<nat>)
    ensures |KeepComplete(rows, idx)| == |rows| - CountIncomplete(rows, idx)
  {
    if rows != [] {
      KeepCompleteCount(rows[1..], idx);
    }
  }

  /** Filtering twice keeps what filtering once keeps. */
  lemma {:induction false} KeepCompleteIdempotent(rows: seq<seq<Cell>>, idx: seq<nat>)
    ensures KeepComplete(KeepComplete(rows, idx), idx) == KeepComplete(rows, idx)
  {
    if rows != [] {
      var rest := KeepComplete(rows[1..], idx);
      KeepCompleteIdempotent(rows[1..], idx);
      if Complete(rows[0], idx) {
        var kept := [rows[0]] + rest;
        assert KeepComplete(rows, idx) == kept;
        assert kept[0] == rows[0] && kept[1..] == rest;
        assert KeepComplete(kept, idx) == [rows[0]] + KeepComplete(rest, idx);
      } else {
        assert KeepComplete(rows, idx) == rest;
      }
    }
  }

  /**
   * The filter works row by row and keeps the surviving rows in their
   * original order: filtering a concatenation concatenates the filtered parts.
   */
  lemma {:induction false} KeepCompleteAppend(a: seq<seq<Cell>>, b: seq<seq<Cell>>, idx: seq<nat>)
    ensures KeepComplete(a + b, idx) == KeepComplete(a, idx) + KeepComplete(b, idx)
  {
    if a == [] {
      assert a + b == b;
    } else {
      assert (a + b)[0] == a[0];
      assert (a + b)[1..] == a[1..] + b;
      KeepCompleteAppend(a[1..], b, idx);
    }
  }

  /** `df.dropna(subset=names)`: drop every row with a missing value in one of the named columns. */
  function DropMissing(f: Frame, names: seq<string>): (r: Frame)
    requires forall k :: 0 <= k < |names| ==> names[k] in f.columns
    ensures r.columns == f.columns && r.types == f.types
    ensures WellFormed(f) ==> WellFormed(r)
  {
    var rows := KeepComplete(f.rows, Indices(f.columns, names));
    assert WellFormed(f) ==> forall i :: 0 <= i < |rows| ==> RowFits(f.types, rows[i]) by {
      if WellFormed(f) {
        forall i | 0 <= i < |rows| ensures RowFits(f.types, rows[i]) {
          assert rows[i] in rows;
          var k :| 0 <= k < |f.rows| && f.rows[k] == rows[i];
        }
      }
    }
    f.(rows := rows)
  }

  // ---------------------------------------------------------------------------
  // Filling missing values

  /** `df[column].fillna(v)` for the column at position `j`. */
  function FillColumn(f: Frame, j: nat, v: Value): (r: Frame)
    requires WellFormed(f) && j < |f.columns|
    requires f.types[j].IsNumeric() ==> v.Num?
    ensures r.columns == f.columns && r.types == f.types && |r.rows| == |f.rows|
    ensures WellFormed(r)
    ensures Column(r, j) == FillCells(Column(f, j), v)
    ensures forall i, k :: 0 <= i < |f.rows| && 0 <= k < |f.columns| && k != j ==> r.rows[i][k] == f.rows[i][k]
  {
    var rows := seq(|f.rows|, i requires 0 <= i < |f.rows| =>
      assert RowFits(f.types, f.rows[i]);
      if f.rows[i][j].None? then f.rows[i][j := Some(v)] else f.rows[i]);
    var r := f.(rows := rows);
    assert forall i :: 0 <= i < |rows| ==> RowFits(f.types, rows[i]) by {
      forall i | 0 <= i < |rows| ensures RowFits(f.types, rows[i]) {
        assert RowFits(f.types, f.rows[i]);
      }
    }
    assert Column(r, j) == FillCells(Column(f, j), v);
    r
  }

  /** Whether column `j` has a missing cell. */
  predicate HasMissing(f: Frame, j: nat)
    requires WellFormed(f) && j < |f.columns|
  {
    exists i :: 0 <= i < |f.rows| && Column(f, j)[i].None?
  }

  /**
   * The dtype a column has after `fillna(v)`: filling a text into a numeric
   * column that had a missing cell turns it into an object column.
   */
  function FilledType(t: ColType, hadMissing: bool, v: Value): ColType
  {
    if v.Str? && t.IsNumeric() && hadMissing then Text else t
  }

  /**
   * `df[names] = df[names].fillna(v)`: every missing cell of the named columns
   * becomes `v`, whatever the column's dtype; the dtype follows FilledType.
   */
  function FillConstant(f: Frame, names: seq<string>, v: Value): (r: Frame)
    requires WellFormed(f)
    ensures r.columns == f.columns && |r.types| == |f.types| && |r.rows| == |f.rows|
    ensures WellFormed(r)
    ensures forall j :: 0 <= j < |f.columns| ==>
              r.types[j] == if f.columns[j] in names then FilledType(f.types[j], HasMissing(f, j), v) else f.types[j]
    ensures forall i, j :: 0 <= i < |f.rows| && 0 <= j < |f.columns| ==>
              RowFits(f.types, f.rows[i]) &&
              r.rows[i][j] == if f.columns[j] in names && f.rows[i][j].None? then Some(v) else f.rows[i][j]
  {
    var types := seq(|f.types|, j requires 0 <= j < |f.types| =>
      if f.columns[j] in names then FilledType(f.types[j], HasMissing(f, j), v) else f.types[j]);
    var rows := seq(|f.rows|, i requires 0 <= i < |f.rows| =>
      assert RowFits(f.types, f.rows[i]);
      seq(|f.columns|, j requires 0 <= j < |f.columns| =>
        if f.columns[j] in names && f.rows[i][j].None? then Some(v) else f.rows[i][j]));
    assert forall i :: 0 <= i < |rows| ==> RowFits(types, rows[i]) by {
      forall i | 0 <= i < |rows| ensures RowFits(types, rows[i]) {
        var r := rows[i];
        assert RowFits(f.types, f.rows[i]);
        forall j | 0 <= j < |r| && types[j].IsNumeric() ensures r[j].None? || r[j].value.Num? {
          if f.columns[j] in names && f.rows[i][j].None? {
            assert Column(f, j)[i].None?;
          }
        }
      }
    }
    Frame(f.columns, types, rows)
  }

  // ---------------------------------------------------------------------------
  // The mean of a filled column

  /** Filling `m` into `k` missing cells adds `k` values to the sample ... */
  lemma {:induction false} FillAddsCount(col: seq<Cell>, m: real)
    ensures |PresentNums(FillCells(col, Num(m)))| == |PresentNums(col)| + CountMissing(col)
  {
    if col != [] {
      var filled := FillCells(col, Num(m));
      FillAddsCount(col[1..], m);
      assert filled[1..] == FillCells(col[1..], Num(m));
      assert PresentNums(col) == NumOf(col[0]) + PresentNums(col[1..]);
      assert PresentNums(filled) == NumOf(filled[0]) + PresentNums(filled[1..]);
      if col[0].None? {
        assert NumOf(filled[0]) == [m];
      } else {
        assert filled[0] == col[0];
      }
    }
  }

  /** `k` copies of `m`, summed. */
  function Copies(k: nat, m: real): real
  {
    if k == 0 then 0.0 else m + Copies(k - 1, m)
  }

  lemma {:induction false} CopiesIsProduct(k: nat, m: real)
    ensures Copies(k, m) == (k as real) * m
  {
    if k > 0 {
      CopiesIsProduct(k - 1, m);
      assert ((k - 1) as real) * m + m == (k as real) * m;
    }
  }

  /** ... and each of them is `m`. */
  lemma {:induction false} FillAddsCopies(col: seq<Cell>, m: real)
    ensures Stats.Sum(PresentNums(FillCells(col, Num(m)))) == Stats.Sum(PresentNums(col)) + Copies(CountMissing(col), m)
  {
    if col != [] {
      var filled := FillCells(col, Num(m));
      var rest, frest := PresentNums(col[1..]), PresentNums(filled[1..]);
      FillAddsCopies(col[1..], m);
      assert filled[1..] == FillCells(col[1..], Num(m));
      SumCons(NumOf(col[0]), rest);
      SumCons(NumOf(filled[0]), frest);
      assert PresentNums(col) == NumOf(col[0]) + rest;
      assert PresentNums(filled) == NumOf(filled[0]) + frest;
      if col[0].None? {
        assert NumOf(filled[0]) == [m] && NumOf(col[0]) == [];
      } else {
        assert filled[0] == col[0];
      }
    }
  }

  lemma SumCons(h: seq<real>, t: seq<real>)
    requires |h| <= 1
    ensures Stats.Sum(h + t) == (if h == [] then 0.0 else h[0]) + Stats.Sum(t)
  {
    if h != [] {
      assert (h + t)[1..] == t;
    } else {
      assert h + t == t;
    }
  }

  /**
   * Filling a column with the mean of its present values leaves that mean
   * unchanged: a second "Fill with Mean" would use the same number.
   */
  lemma FillWithMeanKeepsMean(col: seq<Cell>)
    requires PresentNums(col) != []
    ensures var m := Stats.Mean(PresentNums(col));
            PresentNums(FillCells(col, Num(m))) != [] &&
            Stats.Mean(PresentNums(FillCells(col, Num(m)))) == m
  {
    var xs := PresentNums(col);
    var m := Stats.Mean(xs);
    var ys := PresentNums(FillCells(col, Num(m)));
    FillAddsCount(col, m);
    FillAddsCopies(col, m);
    CopiesIsProduct(CountMissing(col), m);
    MeanAfterCopies(xs, ys, CountMissing(col));
  }

  /** Adding `k` copies of a sample's mean to it keeps the mean. */
  lemma MeanAfterCopies(xs: seq<real>, ys: seq<real>, k: nat)
    requires xs != [] && |ys| == |xs| + k
    requires Stats.Sum(ys) == Stats.Sum(xs) + (k as real) * Stats.Mean(xs)
    ensures ys != [] && Stats.Mean(ys) == Stats.Mean(xs)
  {
    MeanOfExtended(Stats.Sum(xs), |xs| as real, k as real, Stats.Mean(xs), Stats.Sum(ys), |ys| as real);
  }

  /** The arithmetic step: `t / d == m` when `t = s + k*m`, `d = n + k` and `m = s / n`. */
  lemma MeanOfExtended(s: real, n: real, k: real, m: real, t: real, d: real)
    requires n > 0.0 && k >= 0.0 && m == s / n
    requires t == s + k * m && d == n + k
    ensures t / d == m
  {
    assert s == m * n;
    assert t == m * d;
  }

  // ---------------------------------------------------------------------------
  // The mutable table

  /** The DataFrame object that preprocessing changes in place. */
  class Table {
    var columns: seq<string>
    var types: seq<ColType>
    var rows: seq<seq<Cell>>

    function Value(): Frame
      reads this
    {
      Frame(columns, types, rows)
    }

    ghost predicate Valid()
      reads this
    {
      WellFormed(Value())
    }

    constructor (f: Frame)
      requires WellFormed(f)
      ensures Valid() && Value() == f
    {
      columns, types, rows := f.columns, f.types, f.rows;
    }

    /** `dropna(subset=names, inplace=True)`. */
    method DropNa(names: seq<string>)
      requires Valid()
      requires forall k :: 0 <= k < |names| ==> names[k] in columns
      modifies this
      ensures Valid() && Value() == DropMissing(old(Value()), names)
    {
      var f := DropMissing(Value(), names);
      rows := f.rows;
    }

    /** `df[column].fillna(v, inplace=True)` for the column at position `j`. */
    method FillNa(j: nat, v: Value)
      requires Valid() && j < |columns|
      requires types[j].IsNumeric() ==> v.Num?
      modifies this
      ensures Valid() && Value() == FillColumn(old(Value()), j, v)
    {
      var f := FillColumn(Value(), j, v);
      rows := f.rows;
    }

    /** `df[names] = df[names].fillna(v)`. */
    method FillNaColumns(names: seq<string>, v: Value)
      requires Valid()
      modifies this
      ensures Valid() && Value() == FillConstant(old(Value()), names, v)
    {
      var f := FillConstant(Value(), names, v);
      types, rows := f.types, f.rows;
    }
  }
}
