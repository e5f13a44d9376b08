/**
 * The missing-data panel (src/interface/DataPreprocessor.py): one of four
 * strategies applied in place to the selected columns of the table widget's
 * frame, and the highlighting of empty cells in the grid.
 */
module DataPreprocessing {
  import opened Wrappers
  import opened Frames
  import Stats
  import Text
  import opened DataTableView

  /** The entries of the strategy box. */
  datatype Strategy = RemoveRows | FillWithMean | FillWithMedian | FillWithConstant

  /** The statistic a fill strategy uses. */
  datatype Stat = Mean | Median

  /**
   * The columns to process: the entry columns in their order, then the
   * target unless it is already one of them.
   */
  function ColumnsToProcess(entry: seq<string>, target: string): (cols: seq<string>)
    ensures |cols| == if target in entry then |entry| else |entry| + 1
    ensures cols[..|entry|] == entry
    ensures forall c :: c in cols <==> c in entry || c == target
    ensures NoDup(entry) ==> NoDup(cols)
  {
    if target in entry then entry else entry + [target]
  }

  /**
   * `Series.mean()` / `Series.median()` over the present numbers, or nothing
   * when there are none (pandas answers NaN, and filling with NaN changes nothing).
   */
  function StatOf(stat: Stat, xs: seq<real>): (r: Option<real>)
    ensures r.None? <==> xs == []
    ensures r.Some? ==> Stats.Min(xs) <= r.value <= Stats.Max(xs)
  {
    if xs == [] then None
    else if stat == Mean then
      Stats.MeanWithinRange(xs);
      Some(Stats.Mean(xs))
    else
      Stats.MedianWithinRange(xs);
      Some(Stats.Median(xs))
  }

  /** Every name is a column of the frame. */
  predicate AllColumns(f: Frame, names: seq<string>)
  {
    forall k :: 0 <= k < |names| ==> names[k] in f.columns
  }

  /** One pass of the fill loop: fill column `c` with its statistic when its dtype is numeric. */
  function FillOne(f: Frame, c: string, stat: Stat): (r: Frame)
    requires WellFormed(f) && c in f.columns
    ensures WellFormed(r) && r.columns == f.columns && r.types == f.types && |r.rows| == |f.rows|
  {
    var j := IndexOf(f.columns, c);
    if f.types[j].IsNumeric() then
      match StatOf(stat, PresentNums(Column(f, j)))
      case None => f
      case Some(m) => FillColumn(f, j, Num(m))
    else f
  }

  /** The fill loop over the columns to process, one column after the other. */
  function FillStats(f: Frame, names: seq<string>, stat: Stat): (r: Frame)
    requires WellFormed(f) && AllColumns(f, names)
    ensures WellFormed(r) && r.columns == f.columns && r.types == f.types && |r.rows| == |f.rows|
  {
    if names == [] then f
    else FillOne(FillStats(f, names[..|names| - 1], stat), names[|names| - 1], stat)
  }

  /**
   * What a cell becomes under a fill strategy: a missing cell of a processed
   * numeric column that has some present number becomes the statistic of
   * that column's ORIGINAL present numbers; every other cell is kept.
   */
  function StatFilledCell(f: Frame, names: seq<string>, stat: Stat, i: nat, j: nat): Cell
    requires WellFormed(f) && i < |f.rows| && j < |f.columns|
  {
    var s := StatOf(stat, PresentNums(Column(f, j)));
    if f.columns[j] in names && f.types[j].IsNumeric() && f.rows[i][j].None? && s.Some?
    then Some(Num(s.value))
    else f.rows[i][j]
  }

  /**
   * Fill with Mean and Fill with Median touch only processed numeric columns,
   * and fill each missing cell with the statistic of the column as it was
   * before the loop: filling one column never changes another's statistic.
   */
  lemma {:induction false} FillStatsCells(f: Frame, names: seq<string>, stat: Stat, i: nat, j: nat)
    requires WellFormed(f) && AllColumns(f, names) && NoDup(names)
    requires i < |f.rows| && j < |f.columns|
    ensures FillStats(f, names, stat).rows[i][j] == StatFilledCell(f, names, stat, i, j)
    decreases |names|, 0
  {
    if names != [] {
      var init, c := names[..|names| - 1], names[|names| - 1];
      var g := FillStats(f, init, stat);
      assert NoDup(init);
      assert AllColumns(f, init);
      var jc := IndexOf(f.columns, c);
      assert names == init + [c];
      assert FillStats(f, names, stat) == FillOne(g, c, stat);
      FillOneCell(g, c, stat, i, j);
      FillStatsCells(f, init, stat, i, j);
      if j == jc {
        assert c !in init;
        FillStatsUntouched(f, init, stat, jc);
      }
    }
  }

  /** A column the loop has not reached yet is as it was. */
  lemma FillStatsUntouched(f: Frame, names: seq<string>, stat: Stat, j: nat)
    requires WellFormed(f) && AllColumns(f, names) && NoDup(names)
    requires j < |f.columns| && f.columns[j] !in names
    ensures Column(FillStats(f, names, stat), j) == Column(f, j)
    decreases |names|, 1
  {
    var g := FillStats(f, names, stat);
    forall a | 0 <= a < |f.rows| ensures g.rows[a][j] == f.rows[a][j] {
      FillStatsCells(f, names, stat, a, j);
    }
  }

  /** One pass of the fill loop, seen from one cell. */
  lemma FillOneCell(g: Frame, c: string, stat: Stat, i: nat, j: nat)
    requires WellFormed(g) && c in g.columns && i < |g.rows| && j < |g.columns|
    ensures var s := StatOf(stat, PresentNums(Column(g, j)));
            FillOne(g, c, stat).rows[i][j] ==
            if j == IndexOf(g.columns, c) && g.types[j].IsNumeric() && g.rows[i][j].None? && s.Some?
            then Some(Num(s.value)) else g.rows[i][j]
  {
    var jc := IndexOf(g.columns, c);
    if j == jc && g.types[j].IsNumeric() {
      var s := StatOf(stat, PresentNums(Column(g, j)));
      if s.Some? {
        var r := FillColumn(g, j, Num(s.value));
        assert r.rows[i][j] == Column(r, j)[i];
      }
    }
  }

  /** Frames with the same header and the same cells are equal. */
  lemma SameCells(a: Frame, b: Frame)
    requires WellFormed(a) && WellFormed(b)
    requires a.columns == b.columns && a.types == b.types && |a.rows| == |b.rows|
    requires forall i, j :: 0 <= i < |a.rows| && 0 <= j < |a.columns| ==> a.rows[i][j] == b.rows[i][j]
    ensures a == b
  {
    forall i | 0 <= i < |a.rows| ensures a.rows[i] == b.rows[i] {
      assert RowFits(a.types, a.rows[i]) && RowFits(b.types, b.rows[i]);
    }
  }

  /** Running the fill loop a second time changes nothing. */
  lemma FillStatsIdempotent(f: Frame, names: seq<string>, stat: Stat)
    requires WellFormed(f) && AllColumns(f, names) && NoDup(names)
    ensures FillStats(FillStats(f, names, stat), names, stat) == FillStats(f, names, stat)
  {
    var g := FillStats(f, names, stat);
    var h := FillStats(g, names, stat);
    forall i, j | 0 <= i < |f.rows| && 0 <= j < |f.columns| ensures h.rows[i][j] == g.rows[i][j] {
      FillStatsTwiceCell(f, names, stat, i, j);
    }
    SameCells(h, g);
  }

  /** The second run of the fill loop, seen from one cell. */
  lemma FillStatsTwiceCell(f: Frame, names: seq<string>, stat: Stat, i: nat, j: nat)
    requires WellFormed(f) && AllColumns(f, names) && NoDup(names)
    requires i < |f.rows| && j < |f.columns|
    ensures var g := FillStats(f, names, stat);
            FillStats(g, names, stat).rows[i][j] == g.rows[i][j]
  {
    var g := FillStats(f, names, stat);
    FillStatsCells(g, names, stat, i, j);
    FillStatsCells(f, names, stat, i, j);
    if g.rows[i][j].None? && f.columns[j] in names && f.types[j].IsNumeric() {
      // the first pass left this cell missing, so the column had no number to use
      assert StatOf(stat, PresentNums(Column(f, j))).None?;
      forall a | 0 <= a < |f.rows| ensures g.rows[a][j] == f.rows[a][j] {
        FillStatsCells(f, names, stat, a, j);
      }
      assert Column(g, j) == Column(f, j);
    }
  }

  /** "Fill with Constant" on a second run finds nothing missing in the processed columns. */
  lemma FillConstantIdempotent(f: Frame, names: seq<string>, v: Value)
    requires WellFormed(f)
    ensures FillConstant(FillConstant(f, names, v), names, v) == FillConstant(f, names, v)
  {
    var g := FillConstant(f, names, v);
    var h := FillConstant(g, names, v);
    forall j | 0 <= j < |f.columns| && f.columns[j] in names ensures !HasMissing(g, j) {
      forall a | 0 <= a < |g.rows| ensures Column(g, j)[a].Some? {
      }
    }
    assert h.types == g.types;
    forall i, j | 0 <= i < |f.rows| && 0 <= j < |f.columns| ensures h.rows[i][j] == g.rows[i][j] {
    }
    SameCells(h, g);
  }

  /** The frame after a completed strategy. */
  function Preprocess(f: Frame, cols: seq<string>, strategy: Strategy, constant: Value): (r: Frame)
    requires WellFormed(f) && AllColumns(f, cols)
    ensures WellFormed(r) && r.columns == f.columns
  {
    match strategy
    case RemoveRows => DropMissing(f, cols)
    case FillWithMean => FillStats(f, cols, Mean)
    case FillWithMedian => FillStats(f, cols, Median)
    case FillWithConstant => FillConstant(f, cols, constant)
  }

  /** Every strategy is idempotent: applying it again to its own result changes nothing. */
  lemma PreprocessIdempotent(f: Frame, cols: seq<string>, strategy: Strategy, constant: Value)
    requires WellFormed(f) && AllColumns(f, cols) && NoDup(cols)
    ensures var g := Preprocess(f, cols, strategy, constant);
            Preprocess(g, cols, strategy, constant) == g
  {
    match strategy
    case RemoveRows =>
      KeepCompleteIdempotent(f.rows, Indices(f.columns, cols));
    case FillWithMean =>
      FillStatsIdempotent(f, cols, Mean);
    case FillWithMedian =>
      FillStatsIdempotent(f, cols, Median);
    case FillWithConstant =>
      FillConstantIdempotent(f, cols, constant);
  }

  /**
   * Remove Rows keeps exactly the rows with no missing value in a processed
   * column, each as often as it occurred, and loses one row per flagged row.
   */
  lemma RemoveRowsKeepsCompleteRows(f: Frame, cols: seq<string>, row: seq<Cell>)
    requires WellFormed(f) && AllColumns(f, cols)
    ensures var idx := Indices(f.columns, cols);
            var g := Preprocess(f, cols, RemoveRows, Str(""));
            && g.columns == f.columns && g.types == f.types
            && multiset(g.rows)[row] == (if Complete(row, idx) then multiset(f.rows)[row] else 0)
            && |g.rows| == |f.rows| - CountIncomplete(f.rows, idx)
  {
    var idx := Indices(f.columns, cols);
    KeepCompleteOccurrences(f.rows, idx, row);
    KeepCompleteCount(f.rows, idx);
  }

  /** A row is complete for the processed columns exactly when each named cell is present. */
  lemma CompleteByName(f: Frame, cols: seq<string>, row: seq<Cell>)
    requires WellFormed(f) && AllColumns(f, cols) && |row| == |f.columns|
    ensures Complete(row, Indices(f.columns, cols)) <==>
            forall k :: 0 <= k < |cols| ==> row[IndexOf(f.columns, cols[k])].Some?
  {
  }

  /** Filling with the mean leaves the column's mean as it was. */
  lemma FillMeanKeepsColumnMean(f: Frame, c: string)
    requires WellFormed(f) && c in f.columns
    requires var j := IndexOf(f.columns, c); f.types[j].IsNumeric() && PresentNums(Column(f, j)) != []
    ensures var j := IndexOf(f.columns, c);
            var g := FillStats(f, [c], Mean);
            StatOf(Mean, PresentNums(Column(g, j))) == StatOf(Mean, PresentNums(Column(f, j)))
  {
    var j := IndexOf(f.columns, c);
    assert [c][..0] == [];
    FillWithMeanKeepsMean(Column(f, j));
  }

  /** `float(text)` when it parses, otherwise the raw text. */
  function ParsedConstant(text: string, parseFloat: string -> Option<real>): (v: Value)
    ensures v.Num? <==> parseFloat(text).Some?
    ensures v.Num? ==> v.n == parseFloat(text).value
    ensures v.Str? ==> v.s == text
  {
    match parseFloat(text)
    case Some(x) => Num(x)
    case None => Str(text)
  }

  /**
   * Fill with Constant fills every missing cell of every processed column
   * with the parsed constant and keeps every present cell; a constant that
   * parses as a number keeps every dtype, while a text one turns a numeric
   * processed column that had a gap into an object column.
   */
  lemma ConstantFillCells(f: Frame, cols: seq<string>, text: string, parseFloat: string -> Option<real>)
    requires WellFormed(f) && AllColumns(f, cols)
    ensures var v := ParsedConstant(text, parseFloat);
            var g := Preprocess(f, cols, FillWithConstant, v);
            && (forall i, k :: 0 <= i < |f.rows| && 0 <= k < |cols| ==>
                  var j := IndexOf(f.columns, cols[k]);
                  g.rows[i][j] == if f.rows[i][j].None? then Some(v) else f.rows[i][j])
            && (parseFloat(text).Some? ==> g.types == f.types)
            && (forall k :: 0 <= k < |cols| && parseFloat(text).None? ==>
                  var j := IndexOf(f.columns, cols[k]);
                  g.types[j] == if f.types[j].IsNumeric() && HasMissing(f, j) then Text else f.types[j])
  {
    var v := ParsedConstant(text, parseFloat);
    var g := Preprocess(f, cols, FillWithConstant, v);
    if parseFloat(text).Some? {
      assert forall j :: 0 <= j < |f.types| ==> g.types[j] == f.types[j];
    }
    forall i, k | 0 <= i < |f.rows| && 0 <= k < |cols|
      ensures var j := IndexOf(f.columns, cols[k]);
              g.rows[i][j] == if f.rows[i][j].None? then Some(v) else f.rows[i][j]
    {
      assert f.columns[IndexOf(f.columns, cols[k])] in cols;
    }
  }

  /** The grid's "empty cell" test: no text, or a text that lower-cases to "nan". */
  predicate IsEmptyText(t: string)
  {
    t == "" || Text.Lower(t) == "nan"
  }

  /** The empty texts are "" and the eight spellings of "nan" in any case. */
  lemma EmptyTextCases(t: string)
    ensures IsEmptyText(t) <==>
            t == "" || (|t| == 3 && t[0] in "nN" && t[1] in "aA" && t[2] in "nN")
  {
    if |t| == 3 {
      var l := Text.Lower(t);
      assert l == [Text.LowerChar(t[0]), Text.LowerChar(t[1]), Text.LowerChar(t[2])];
    }
  }

  /** How `apply_preprocessing` ended. */
  datatype Outcome = SelectionMissing | ConstantMissing | Applied

  class DataPreprocessor {
    const table: DataTable

    constructor (table: DataTable)
      ensures this.table == table
    {
      this.table := table;
    }

    /**
     * `apply_preprocessing` with the selector's answer (`entry`, `target`),
     * the chosen strategy and the constant field's text.  With no entry
     * column or no target nothing changes; Fill with Constant with an empty
     * text changes nothing; otherwise the frame is changed in place to the
     * strategy's result and the grid is rebuilt from it.
     */
    method ApplyPreprocessing(entry: seq<string>, target: Option<string>, strategy: Strategy,
                              constantText: string, parseFloat: string -> Option<real>)
      returns (outcome: Outcome)
      requires table.Valid()
      requires AllColumns(table.df.Value(), entry)
      requires target.Some? ==> target.value in table.df.columns
      modifies table, table.df
      ensures table.Valid() && table.df == old(table.df)
      ensures outcome == SelectionMissing <==> entry == [] || target.None?
      ensures outcome == ConstantMissing <==> entry != [] && target.Some? && strategy == FillWithConstant && constantText == ""
      ensures outcome != Applied ==> table.df.Value() == old(table.df.Value()) && table.grid == old(table.grid)
      ensures outcome == Applied ==>
                table.df.Value() == Preprocess(old(table.df.Value()), ColumnsToProcess(entry, target.value),
                                               strategy, ParsedConstant(constantText, parseFloat))
                && fresh(table.grid) && GridShows(table.grid, table.df.Value(), table.numText)
    {
      var df := table.df;
      if entry == [] || target.None? {
        return SelectionMissing;
      }
      if strategy == FillWithConstant && constantText == "" {
        return ConstantMissing;
      }
      var cols := ColumnsToProcess(entry, target.value);
      ApplyStrategy(df, cols, strategy, ParsedConstant(constantText, parseFloat));
      table.UpdateTable(df);
      return Applied;
    }

    /** The `if strategy == ...` chain: change the frame in place as the strategy says. */
    static method ApplyStrategy(df: Table, cols: seq<string>, strategy: Strategy, constant: Value)
      requires df.Valid() && AllColumns(df.Value(), cols)
      modifies df
      ensures df.Valid() && df.Value() == Preprocess(old(df.Value()), cols, strategy, constant)
    {
      match strategy {
        case RemoveRows =>
          df.DropNa(cols);
        case FillWithMean =>
          FillLoop(df, cols, Mean);
        case FillWithMedian =>
          FillLoop(df, cols, Median);
        case FillWithConstant =>
          df.FillNaColumns(cols, constant);
      }
    }

    /** `for column in columns_to_process: if numeric: df[column].fillna(stat, inplace=True)`. */
    static method FillLoop(df: Table, cols: seq<string>, stat: Stat)
      requires df.Valid() && AllColumns(df.Value(), cols)
      modifies df
      ensures df.Valid() && df.Value() == FillStats(old(df.Value()), cols, stat)
    {
      ghost var f0 := df.Value();
      var k := 0;
      while k < |cols|
        invariant 0 <= k <= |cols|
        invariant df.Valid() && df.columns == f0.columns
        invariant AllColumns(f0, cols[..k])
        invariant df.Value() == FillStats(f0, cols[..k], stat)
      {
        assert cols[..k + 1][..k] == cols[..k];
        FillStep(df, cols[k], stat);
        k := k + 1;
      }
      assert cols[..k] == cols;
    }

    /** One iteration of the fill loop, on column `c`. */
    static method FillStep(df: Table, c: string, stat: Stat)
      requires df.Valid() && c in df.columns
      modifies df
      ensures df.Valid() && df.Value() == FillOne(old(df.Value()), c, stat)
    {
      var j := IndexOf(df.columns, c);
      if df.types[j].IsNumeric() {
        var m := StatOf(stat, PresentNums(Column(df.Value(), j)));
        if m.Some? {
          df.FillNa(j, Num(m.value));
        }
      }
    }

    /**
     * `highlight_empty_cells`: with no entry column only a warning; otherwise
     * every grid cell in an entry column whose text is empty is marked.  The
     * target column is not scanned.  When the grid shows the frame, every
     * missing cell of an entry column is among the marked ones.
     */
    method HighlightEmptyCells(entry: seq<string>) returns (warned: bool, marked: set<(int, int)>)
      requires table.Valid()
      requires AllColumns(table.df.Value(), entry)
      ensures warned <==> entry == []
      ensures forall i, j :: (i, j) in marked <==>
                0 <= i < table.grid.Length0 && 0 <= j < table.grid.Length1 &&
                j in Indices(table.df.columns, entry) && IsEmptyText(table.grid[i, j])
      ensures GridShows(table.grid, table.df.Value(), table.numText) ==>
                forall i, k ::
                  (0 <= i < |table.df.rows| && 0 <= k < |entry| &&
                   table.df.rows[i][IndexOf(table.df.columns, entry[k])].None?) ==>
                  (i, IndexOf(table.df.columns, entry[k])) in marked
    {
      marked := {};
      if entry == [] {
        return true, marked;
      }
      warned := false;
      var idx := Indices(table.df.columns, entry);
      var g := table.grid;
      for i := 0 to g.Length0
        invariant forall a, b :: (a, b) in marked <==>
                    0 <= a < i && 0 <= b < g.Length1 && b in idx && IsEmptyText(g[a, b])
      {
        for k := 0 to |idx|
          invariant forall a, b :: (a, b) in marked <==>
                      (0 <= a < i && 0 <= b < g.Length1 && b in idx && IsEmptyText(g[a, b])) ||
                      (a == i && 0 <= b < g.Length1 && b in idx[..k] && IsEmptyText(g[i, b]))
        {
          var j := idx[k];
          if j < g.Length1 && IsEmptyText(g[i, j]) {
            marked := marked + {(i, j)};
          }
          assert idx[..k + 1] == idx[..k] + [j];
        }
        assert idx[..|idx|] == idx;
      }
      assert Text.Lower("nan") == "nan";
    }
  }
}
