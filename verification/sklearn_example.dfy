/**
 * The command-line regression example (src/linear-models_examples/scikit-learn-test.py):
 * `load_file`, which checks existence first and turns every failure into a
 * printed message and `None`, and `preprocess_data`, which fills
 * `total_bedrooms` in place and splits the frame into features and target.
 */
module HousingExample {
  import opened Wrappers
  import opened Frames
  import opened Readers
  import Stats

  /** What `load_file` prints, and what it returns (`None` after any error). */
  datatype Loaded = Loaded(data: Option<Frame>, message: string)

  const Missing := "The file does not exist. Please verify the path."

  /** The `except` clauses, tried in order, for an exception a reader raised. */
  function Caught(e: ReaderError): string
  {
    match e.kind
    case FileNotFound => e.message
    case EmptyData => "Error: The CSV file is empty or corrupt."
    case Database => "Error: The SQLite database is invalid or corrupt."
    case _ => "Error: " + e.message
  }

  /** The reader selected by the extension, before the emptiness check. */
  function ReadAny(path: string, format: Format, files: Files): Result<Frame, string>
  {
    match format
    case Csv => (match files.readCsv(path) case Failure(e) => Failure(Caught(e)) case Success(df) => Success(df))
    case Excel => (match files.readExcel(path) case Failure(e) => Failure(Caught(e)) case Success(df) => Success(df))
    case Sqlite =>
      (match files.tableNames(path)
       case Failure(e) => Failure(Caught(e))
       case Success(names) =>
         if names == [] then Failure("Error: The database does not contain any tables.")
         else (match files.readTable(path, names[0]) case Failure(e) => Failure(Caught(e)) case Success(df) => Success(df)))
    case Unknown => Failure("Error: Unsupported file type. Use CSV, XLSX, XLS, or SQLite/DB.")
  }

  /** `load_file`. */
  function LoadFile(path: string, files: Files): (r: Loaded)
    ensures !files.fileExists(path) ==> r == Loaded(None, Missing)
    ensures r.data.Some? ==> !IsEmpty(r.data.value) && r.message == "File loaded successfully."
    ensures files.fileExists(path) && FormatOf(LoweredExtension(path)) == Unknown ==>
              r == Loaded(None, "Error: Unsupported file type. Use CSV, XLSX, XLS, or SQLite/DB.")
  {
    if !files.fileExists(path) then Loaded(None, Missing)
    else match ReadAny(path, FormatOf(LoweredExtension(path)), files)
         case Failure(msg) => Loaded(None, msg)
         case Success(df) =>
           if IsEmpty(df) then Loaded(None, "Error: The file is empty.")
           else Loaded(Some(df), "File loaded successfully.")
  }

  /** Existence comes first: a missing path is reported the same way whatever its extension or readers. */
  lemma ExistenceFirst(path: string, files1: Files, files2: Files)
    requires !files1.fileExists(path) && !files2.fileExists(path)
    ensures LoadFile(path, files1) == LoadFile(path, files2)
  {
  }

  /**
   * A loaded frame is exactly the selected reader's non-empty result; for a
   * database that is the catalog's first table, read in full.
   */
  lemma LoadedIsRead(path: string, files: Files)
    requires files.fileExists(path)
    ensures var format := FormatOf(LoweredExtension(path));
            && (format == Csv ==> (LoadFile(path, files).data.Some? <==> files.readCsv(path).Success? && !IsEmpty(files.readCsv(path).value)))
            && (format == Excel ==> (LoadFile(path, files).data.Some? <==> files.readExcel(path).Success? && !IsEmpty(files.readExcel(path).value)))
            && (format == Sqlite && LoadFile(path, files).data.Some? ==>
                  files.tableNames(path).Success? && files.tableNames(path).value != [] &&
                  LoadFile(path, files).data == Some(files.readTable(path, files.tableNames(path).value[0]).value))
            && (format == Sqlite && files.tableNames(path).Success? && files.tableNames(path).value == [] ==>
                  LoadFile(path, files) == Loaded(None, "Error: The database does not contain any tables."))
  {
  }

  // ---------------------------------------------------------------------------
  // Feature/target split

  /** `[c for c in cols if c not in names]`: the columns kept by `drop(columns=names)`, in order. */
  function Without(cols: seq<string>, names: seq<string>): (r: seq<string>)
    ensures |r| <= |cols|
    ensures forall c :: c in r <==> c in cols && c !in names
  {
    if cols == [] then []
    else Without(cols[..|cols| - 1], names) + (if cols[|cols| - 1] in names then [] else [cols[|cols| - 1]])
  }

  /** The positions of the kept columns, increasing. */
  function KeptIndices(cols: seq<string>, names: seq<string>): (r: seq<nat>)
    ensures |r| == |Without(cols, names)|
    ensures forall k :: 0 <= k < |r| ==> r[k] < |cols| && cols[r[k]] == Without(cols, names)[k]
    ensures forall a, b :: 0 <= a < b < |r| ==> r[a] < r[b]
  {
    if cols == [] then []
    else KeptIndices(cols[..|cols| - 1], names) + (if cols[|cols| - 1] in names then [] else [|cols| - 1])
  }

  /** Dropping columns twice drops nothing more. */
  lemma {:induction false} WithoutIdempotent(cols: seq<string>, names: seq<string>)
    ensures Without(Without(cols, names), names) == Without(cols, names)
  {
    if cols != [] {
      var init := cols[..|cols| - 1];
      var last := cols[|cols| - 1];
      var w := Without(init, names);
      WithoutIdempotent(init, names);
      if last in names {
        assert Without(cols, names) == w;
      } else {
        assert Without(cols, names) == w + [last];
        WithoutSnoc(w, last, names);
        assert Without(w + [last], names) == Without(w, names) + [last];
      }
    }
  }

  lemma WithoutSnoc(cols: seq<string>, c: string, names: seq<string>)
    ensures Without(cols + [c], names) == Without(cols, names) + (if c in names then [] else [c])
  {
    assert (cols + [c])[..|cols + [c]| - 1] == cols;
  }

  /** In a list without duplicates, a name's position is where it sits. */
  lemma IndexOfDistinct(cols: seq<string>, j: nat)
    requires NoDup(cols) && j < |cols|
    ensures IndexOf(cols, cols[j]) == j
  {
  }

  /** The kept columns of a list without duplicates have none either. */
  lemma WithoutNoDup(cols: seq<string>, names: seq<string>)
    requires NoDup(cols)
    ensures NoDup(Without(cols, names))
  {
    var idx := KeptIndices(cols, names);
    var r := Without(cols, names);
    forall a, b | 0 <= a < b < |r| ensures r[a] != r[b] {
      assert idx[a] < idx[b];
    }
  }

  /** `df.drop(columns=names)` for names that are all present. */
  function DropColumns(f: Frame, names: seq<string>): (r: Frame)
    requires WellFormed(f)
    ensures r.columns == Without(f.columns, names)
    ensures WellFormed(r) && |r.rows| == |f.rows|
    ensures forall i, k :: 0 <= i < |r.rows| && 0 <= k < |r.columns| ==>
              r.rows[i][k] == f.rows[i][IndexOf(f.columns, r.columns[k])]
  {
    var idx := KeptIndices(f.columns, names);
    var cols := Without(f.columns, names);
    WithoutNoDup(f.columns, names);
    forall k | 0 <= k < |idx| ensures IndexOf(f.columns, cols[k]) == idx[k] {
      IndexOfDistinct(f.columns, idx[k]);
    }
    var types := seq(|idx|, k requires 0 <= k < |idx| => f.types[idx[k]]);
    var rows := seq(|f.rows|, i requires 0 <= i < |f.rows| =>
      assert RowFits(f.types, f.rows[i]);
      seq(|idx|, k requires 0 <= k < |idx| => f.rows[i][idx[k]]));
    assert forall i :: 0 <= i < |rows| ==> RowFits(types, rows[i]) by {
      forall i | 0 <= i < |rows| ensures RowFits(types, rows[i]) {
        assert RowFits(f.types, f.rows[i]);
      }
    }
    Frame(cols, types, rows)
  }

  const Target := "median_house_value"
  const Categorical := "ocean_proximity"
  const Bedrooms := "total_bedrooms"

  /** An exception `preprocess_data` lets escape. */
  datatype Raise =
    | MeanOfText   // TypeError: `mean()` of an object column holding text
    | NotInAxis    // KeyError: `drop` of a column that is not there

  /** `(X, y)`, `(None, None)`, or an exception. */
  datatype Prepared = Split(x: Frame, y: seq<Cell>) | NoTarget | Raised(error: Raise)

  /** Whether some present cell of a column is a text. */
  predicate HasText(col: seq<Cell>)
  {
    exists i :: 0 <= i < |col| && col[i].Some? && col[i].value.Str?
  }

  /**
   * The first step: `total_bedrooms`, when present, has its missing cells
   * filled with the mean of its numbers.  With no number the mean is NaN and
   * nothing is filled; a text in the column makes `mean()` raise.
   */
  function BedroomsFilled(f: Frame): Result<Frame, Raise>
    requires WellFormed(f)
  {
    if Bedrooms !in f.columns then Success(f)
    else
      var j := IndexOf(f.columns, Bedrooms);
      var col := Column(f, j);
      if HasText(col) then Failure(MeanOfText)
      else if PresentNums(col) == [] then Success(f)
      else Success(FillColumn(f, j, Num(Stats.Mean(PresentNums(col)))))
  }

  /**
   * After the fill, `total_bedrooms` has no missing cell left (when it had a
   * number), its mean is what it was, and every other column is untouched.
   */
  lemma BedroomsFillSpec(f: Frame)
    requires WellFormed(f) && BedroomsFilled(f).Success?
    ensures var g := BedroomsFilled(f).value;
            && WellFormed(g) && g.columns == f.columns && g.types == f.types && |g.rows| == |f.rows|
            && (Bedrooms !in f.columns ==> g == f)
            && (Bedrooms in f.columns ==>
                  var j := IndexOf(f.columns, Bedrooms);
                  && (forall i, k :: 0 <= i < |f.rows| && 0 <= k < |f.columns| && k != j ==> g.rows[i][k] == f.rows[i][k])
                  && (PresentNums(Column(f, j)) != [] ==>
                        && (forall i :: 0 <= i < |g.rows| ==> g.rows[i][j].Some?)
                        && PresentNums(Column(g, j)) != []
                        && Stats.Mean(PresentNums(Column(g, j))) == Stats.Mean(PresentNums(Column(f, j))))
                  && (PresentNums(Column(f, j)) == [] ==> g == f))
  {
    if Bedrooms in f.columns {
      var j := IndexOf(f.columns, Bedrooms);
      var col := Column(f, j);
      if PresentNums(col) != [] {
        var g := BedroomsFilled(f).value;
        FillWithMeanKeepsMean(col);
        forall i | 0 <= i < |g.rows| ensures g.rows[i][j].Some? {
          assert Column(g, j)[i] == g.rows[i][j];
        }
      }
    }
  }

  /**
   * The second step: with the target present, X is every column but the
   * target and the categorical one, and y is the target column; without the
   * target the result is `(None, None)`.
   */
  function SplitXY(f: Frame): (r: Prepared)
    requires WellFormed(f)
    ensures r.NoTarget? <==> Target !in f.columns
    ensures r.Raised? <==> Target in f.columns && Categorical !in f.columns
    ensures r.Split? ==>
              && r.x.columns == Without(f.columns, [Target, Categorical])
              && WellFormed(r.x)
              && Target !in r.x.columns && Categorical !in r.x.columns
              && (forall c :: c in f.columns && c != Target && c != Categorical ==> c in r.x.columns)
              && |r.y| == |r.x.rows| == |f.rows|
              && (forall i :: 0 <= i < |r.y| ==> r.y[i] == f.rows[i][IndexOf(f.columns, Target)])
  {
    if Target !in f.columns then NoTarget
    else if Categorical !in f.columns then Raised(NotInAxis)
    else Split(DropColumns(f, [Target, Categorical]), Column(f, IndexOf(f.columns, Target)))
  }

  /** `preprocess_data(data)`: fills the passed table in place, then splits it. */
  method PreprocessData(data: Table) returns (out: Prepared)
    requires data.Valid()
    modifies data
    ensures data.Valid()
    ensures BedroomsFilled(old(data.Value())).Failure? ==>
              out == Raised(MeanOfText) && data.Value() == old(data.Value())
    ensures BedroomsFilled(old(data.Value())).Success? ==>
              data.Value() == BedroomsFilled(old(data.Value())).value && out == SplitXY(data.Value())
  {
    if Bedrooms in data.columns {
      var j := IndexOf(data.columns, Bedrooms);
      var col := Column(data.Value(), j);
      if HasText(col) {
        return Raised(MeanOfText);
      }
      var xs := PresentNums(col);
      if xs != [] {
        data.FillNa(j, Num(Stats.Mean(xs)));
      }
    }
    out := SplitXY(data.Value());
  }
}
