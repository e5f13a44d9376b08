/**
 * The stand-alone loader `import_file` (src/file_reader.py): an extension
 * whitelist checked before the file is touched, one reader per format, and
 * every later failure re-raised as a ValueError with a fixed prefix.  The
 * function prints a five-row preview and returns nothing; here a success
 * carries that preview.
 */
module FileReader {
  import opened Wrappers
  import opened Frames
  import opened Readers

  const InvalidFormat := "Invalid file format. Only Excel, CSV, and SQLite files are allowed."
  const Corrupt := "The file appears to be corrupted or invalid: "

  predicate StartsWith(s: string, prefix: string)
  {
    |prefix| <= |s| && s[..|prefix|] == prefix
  }

  /** The body of the `try` block: the format's checks, raising with the given text. */
  function ReadChecked(path: string, format: Format, files: Files): Result<Frame, string>
  {
    match format
    case Excel =>
      if !files.fileExists(path) then Failure("Error: File not found at " + path)
      else (match files.readExcel(path)
            case Failure(e) => Failure(e.message)
            case Success(df) => if IsEmpty(df) then Failure("The Excel database is empty.") else Success(Head(df, 5)))
    case Csv =>
      (match files.readCsv(path)
       case Failure(e) => Failure(e.message)
       case Success(df) => if IsEmpty(df) then Failure("The CSV database is empty.") else Success(Head(df, 5)))
    case Sqlite =>
      (match files.tableNames(path)
       case Failure(e) => Failure(e.message)
       case Success(names) =>
         if names == [] then Failure("The SQLite database is empty or contains no tables.")
         else (match files.readTable(path, names[0])
               case Failure(e) => Failure(e.message)
               case Success(df) => Success(Head(df, 5))))
    case Unknown => Success(Frame([], [], []))
  }

  /** `import_file`: the previewed frame, or the text of the ValueError it raises. */
  function ImportFile(path: string, files: Files): (r: Result<Frame, string>)
    ensures FormatOf(LoweredExtension(path)) == Unknown ==> r == Failure(InvalidFormat)
    ensures FormatOf(LoweredExtension(path)) != Unknown && r.Failure? ==> StartsWith(r.error, Corrupt)
    ensures r.Success? ==> |r.value.rows| <= 5
  {
    var format := FormatOf(LoweredExtension(path));
    if format == Unknown then Failure(InvalidFormat)
    else match ReadChecked(path, format, files)
         case Failure(msg) => Failure(Corrupt + msg)
         case Success(df) => Success(df)
  }

  /** The whitelist is checked before any access: a bad extension fails the same way whatever the files hold. */
  lemma RejectsBeforeAccess(path: string, files1: Files, files2: Files)
    requires FormatOf(LoweredExtension(path)) == Unknown
    ensures ImportFile(path, files1) == ImportFile(path, files2) == Failure(InvalidFormat)
  {
  }

  /** A missing Excel file is raised inside the `try`, so it surfaces wrapped. */
  lemma MissingExcelIsWrapped(path: string, files: Files)
    requires FormatOf(LoweredExtension(path)) == Excel && !files.fileExists(path)
    ensures ImportFile(path, files) == Failure(Corrupt + ("Error: File not found at " + path))
  {
    assert ReadChecked(path, Excel, files) == Failure("Error: File not found at " + path);
  }

  /**
   * CSV and Excel succeed exactly when the reader returns a non-empty frame,
   * and the result is its first five rows.
   */
  lemma SpreadsheetOutcome(path: string, files: Files)
    requires FormatOf(LoweredExtension(path)) in {Csv, Excel}
    ensures var read := if FormatOf(LoweredExtension(path)) == Csv then files.readCsv(path) else files.readExcel(path);
            var exists_ := FormatOf(LoweredExtension(path)) == Csv || files.fileExists(path);
            && (ImportFile(path, files).Success? <==> exists_ && read.Success? && !IsEmpty(read.value))
            && (ImportFile(path, files).Success? ==> ImportFile(path, files).value == Head(read.value, 5))
  {
  }

  /**
   * SQLite fails on an empty catalog and otherwise previews the FIRST table
   * of the catalog, with no check that it has rows.
   */
  lemma SqliteOutcome(path: string, files: Files)
    requires FormatOf(LoweredExtension(path)) == Sqlite
    ensures files.tableNames(path).Success? && files.tableNames(path).value == [] ==>
              ImportFile(path, files) == Failure(Corrupt + "The SQLite database is empty or contains no tables.")
    ensures ImportFile(path, files).Success? <==>
              && files.tableNames(path).Success? && files.tableNames(path).value != []
              && files.readTable(path, files.tableNames(path).value[0]).Success?
    ensures ImportFile(path, files).Success? ==>
              ImportFile(path, files).value == Head(files.readTable(path, files.tableNames(path).value[0]).value, 5)
  {
  }
}
