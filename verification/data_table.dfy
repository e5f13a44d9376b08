/**
 * The table widget (src/interface/DataTable.py): it holds the loaded
 * DataFrame in its `df` field and shows it in a grid of cell texts that is
 * rebuilt, cell by cell, whenever the frame is loaded or replaced.
 */
module DataTableView {
  import opened Wrappers
  import opened Frames
  import opened Readers

  /** `str(df.iat[i, j])`: missing shows as "nan", numbers through `numText`. */
  function CellText(c: Cell, numText: real -> string): string
  {
    match c
    case None => "nan"
    case Some(Num(x)) => numText(x)
    case Some(Str(s)) => s
  }

  /** The grid has one cell per frame cell, each holding that cell's text. */
  ghost predicate GridShows(g: array2<string>, f: Frame, numText: real -> string)
    reads g
  {
    && g.Length0 == |f.rows|
    && g.Length1 == |f.columns|
    && forall i, j :: 0 <= i < g.Length0 && 0 <= j < g.Length1 ==>
         j < |f.rows[i]| && g[i, j] == CellText(f.rows[i][j], numText)
  }

  /** What the format branch of `load_file` produced, before the emptiness check. */
  datatype Dispatch =
    | Raised(error: ReaderError)   // a reader raised; nothing catches it
    | NoTables                     // SQLite file whose catalog is empty
    | Read(frame: Frame)           // the frame assigned to `self.df`
    | NotAssigned                  // unrecognised extension: no branch ran

  function FromReader(r: Result<Frame, ReaderError>): Dispatch
  {
    match r
    case Success(f) => Read(f)
    case Failure(e) => Raised(e)
  }

  /**
   * The branch on the lowered extension.  For SQLite the catalog is listed
   * first; an empty catalog stops the load, otherwise the first table named
   * in the catalog is the one read.
   */
  function Dispatched(fileName: string, files: Files): (d: Dispatch)
    ensures d.NotAssigned? <==> FormatOf(LoweredExtension(fileName)) == Unknown
    ensures d.NoTables? <==> FormatOf(LoweredExtension(fileName)) == Sqlite && files.tableNames(fileName) == Success([])
    ensures d.Read? && FormatOf(LoweredExtension(fileName)) == Sqlite ==>
              files.tableNames(fileName).Success? && files.tableNames(fileName).value != [] &&
              files.readTable(fileName, files.tableNames(fileName).value[0]) == Success(d.frame)
  {
    match FormatOf(LoweredExtension(fileName))
    case Csv => FromReader(files.readCsv(fileName))
    case Excel => FromReader(files.readExcel(fileName))
    case Sqlite =>
      (match files.tableNames(fileName)
       case Failure(e) => Raised(e)
       case Success(names) => if names == [] then NoTables else FromReader(files.readTable(fileName, names[0])))
    case Unknown => NotAssigned
  }

  class DataTable {
    var df: Table
    var grid: array2<string>
    var visible: bool
    /** `str` of a number, as the grid shows it. */
    const numText: real -> string

    ghost predicate Valid()
      reads this, df
    {
      df.Valid()
    }

    /** Starts hidden, with an empty frame and an empty grid. */
    constructor (numText: real -> string)
      ensures Valid() && fresh(df) && fresh(grid)
      ensures df.Value() == Frame([], [], []) && !visible
      ensures grid.Length0 == 0 && grid.Length1 == 0
      ensures this.numText == numText
    {
      df := new Table(Frame([], [], []));
      grid := new string[0, 0];
      visible := false;
      this.numText := numText;
    }

    /** Sets the row and column counts from the frame and writes every cell's text. */
    method FillGrid()
      requires Valid()
      modifies this
      ensures Valid() && df == old(df) && visible == old(visible)
      ensures fresh(grid) && GridShows(grid, df.Value(), numText)
    {
      var f := df.Value();
      var n, m := |f.rows|, |f.columns|;
      var g := new string[n, m];
      for i := 0 to n
        modifies g
        invariant forall a, b :: 0 <= a < i && 0 <= b < m ==> b < |f.rows[a]| && g[a, b] == CellText(f.rows[a][b], numText)
      {
        assert RowFits(f.types, f.rows[i]);
        for j := 0 to m
          modifies g
          invariant forall a, b :: 0 <= a < i && 0 <= b < m ==> b < |f.rows[a]| && g[a, b] == CellText(f.rows[a][b], numText)
          invariant forall b :: 0 <= b < j ==> g[i, b] == CellText(f.rows[i][b], numText)
        {
          g[i, j] := CellText(f.rows[i][j], numText);
        }
      }
      grid := g;
    }

    /**
     * `load_file`: read the file with the reader its lowered extension
     * selects, then show the frame held afterwards unless it is empty.
     * A raising reader leaves everything as it was; an empty SQLite catalog
     * hides the table and answers false without replacing the frame; an
     * unrecognised extension replaces nothing, so the answer then depends
     * only on the frame held before.
     */
    method LoadFile(fileName: string, files: Files) returns (r: Result<bool, ReaderError>)
      requires Valid() && Sound(files)
      modifies this
      ensures Valid()
      ensures var d := Dispatched(fileName, files);
        && (d.Raised? ==> r == Failure(d.error) && df == old(df) && grid == old(grid) && visible == old(visible))
        && (d.NoTables? ==> r == Success(false) && df == old(df) && grid == old(grid) && !visible)
        && (d.Read? ==> fresh(df) && df.Value() == d.frame)
        && (d.NotAssigned? ==> df == old(df))
        && (d.Read? || d.NotAssigned? ==> r == Success(!IsEmpty(df.Value())))
      ensures r == Success(true) ==> visible && fresh(grid) && GridShows(grid, df.Value(), numText)
      ensures r == Success(false) ==> !visible && grid == old(grid)
    {
      var d := Dispatched(fileName, files);
      match d {
        case Raised(e) =>
          return Failure(e);
        case NoTables =>
          visible := false;
          return Success(false);
        case Read(f) =>
          df := new Table(f);
        case NotAssigned =>
      }
      if IsEmpty(df.Value()) {
        visible := false;
        return Success(false);
      }
      FillGrid();
      visible := true;
      return Success(true);
    }

    /** `update_table`: hold the given frame and rebuild the grid from it. */
    method UpdateTable(newDf: Table)
      requires newDf.Valid()
      modifies this
      ensures Valid() && df == newDf && visible == old(visible)
      ensures fresh(grid) && GridShows(grid, df.Value(), numText)
    {
      df := newDf;
      FillGrid();
    }
  }
}
