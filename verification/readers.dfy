/**
 * The foreign side of loading: whether a path exists, and the pandas/sqlite3
 * readers (`read_csv`, `read_excel`, the `sqlite_master` catalog query and
 * `SELECT * FROM <table>`).  They are not modelled; every loader takes them
 * as a `Files` value, and each reader either returns a frame or raises.
 * Also here: the extension dispatch that the loaders share.
 */
module Readers {
  import opened Wrappers
  import opened Frames
  import Text

  /** The exception class a reader raised; loaders branch on it. */
  datatype ErrorKind =
    | FileNotFound      // FileNotFoundError
    | EmptyData         // pandas.errors.EmptyDataError
    | Permission        // PermissionError
    | InvalidExcel      // openpyxl InvalidFileException
    | Database          // sqlite3.DatabaseError
    | ValueErr          // ValueError
    | Other             // any other exception

  /** A raised exception: its class and `str(e)`. */
  datatype ReaderError = ReaderError(kind: ErrorKind, message: string)

  datatype Files = Files(
    fileExists: string -> bool,
    readCsv: string -> Result<Frame, ReaderError>,
    readExcel: string -> Result<Frame, ReaderError>,
    tableNames: string -> Result<seq<string>, ReaderError>,
    readTable: (string, string) -> Result<Frame, ReaderError>)

  /** The readers only ever hand back well-formed frames. */
  ghost predicate Sound(files: Files)
  {
    && (forall p :: files.readCsv(p).Success? ==> WellFormed(files.readCsv(p).value))
    && (forall p :: files.readExcel(p).Success? ==> WellFormed(files.readExcel(p).value))
    && (forall p, t :: files.readTable(p, t).Success? ==> WellFormed(files.readTable(p, t).value))
  }

  /** The reader a lowered extension selects. */
  datatype Format = Csv | Excel | Sqlite | Unknown

  /** `os.path.splitext(path)[1].lower()`. */
  function LoweredExtension(path: string): string
  {
    Text.Lower(Text.Extension(path))
  }

  /** `.csv` selects CSV, `.xlsx`/`.xls` Excel, `.sqlite`/`.db` SQLite; anything else nothing. */
  function FormatOf(ext: string): (r: Format)
    ensures r == Unknown <==> ext !in [".csv", ".xlsx", ".xls", ".sqlite", ".db"]
  {
    if ext == ".csv" then Csv
    else if ext == ".xlsx" || ext == ".xls" then Excel
    else if ext == ".sqlite" || ext == ".db" then Sqlite
    else Unknown
  }

  /**
   * The dispatch ignores case and looks only at the last extension: a named
   * file ending in `e` is read as the format of `e` lowered, whatever
   * precedes it (so "data.backup.CSV" is a CSV file).
   */
  lemma DispatchByLastExtension(stem: string, e: string)
    requires Text.HasNamedStem(stem) && Text.IsExtension(e)
    ensures LoweredExtension(stem + e) == Text.Lower(e)
    ensures FormatOf(LoweredExtension(stem + e)) == FormatOf(Text.Lower(e))
  {
    Text.ExtensionOfAppended(stem, e);
  }

  /** A path with no extension, such as "data" or ".csv", selects no reader. */
  lemma NoExtensionNoFormat(path: string)
    requires Text.Extension(path) == []
    ensures FormatOf(LoweredExtension(path)) == Unknown
  {
  }

  /** Upper-case spellings select the same reader, for example "report.XLSX" is read as Excel. */
  lemma UpperCaseExcel(stem: string)
    requires Text.HasNamedStem(stem)
    ensures FormatOf(LoweredExtension(stem + ".XLSX")) == Excel
  {
    DispatchByLastExtension(stem, ".XLSX");
    assert Text.Lower(".XLSX") == ".xlsx";
  }
}
