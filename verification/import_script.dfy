/**
 * The menu-driven import script (import-de-datos1.py): one loader per
 * format, each printing a message and returning a five-row preview or
 * `None`, and a menu that picks the loader from the option typed.
 */
module ImportScript {
  import opened Wrappers
  import opened Frames
  import opened Readers
  import Text

  /** What a loader prints, and what it returns. */
  datatype Preview = Preview(data: Option<Frame>, message: string)

  /** `load_csv`: there is no emptiness check, so an empty file that parses is a success. */
  function LoadCsv(path: string, files: Files): (r: Preview)
    ensures r.data.Some? <==> files.readCsv(path).Success?
    ensures r.data.Some? ==> r.data.value == Head(files.readCsv(path).value, 5) && |r.data.value.rows| <= 5
    ensures r.data.Some? ==> r.message == "Data successfully loaded from CSV file."
  {
    match files.readCsv(path)
    case Success(df) => Preview(Some(Head(df, 5)), "Data successfully loaded from CSV file.")
    case Failure(e) =>
      if e.kind == EmptyData then Preview(None, "Error: CSV file is empty or corrupted.")
      else Preview(None, "Error loading CSV: " + e.message)
  }

  /** The `except` clauses of `load_excel`, tried in order. */
  function ExcelError(e: ReaderError): string
  {
    match e.kind
    case FileNotFound => "Error: Cannot find the specified file."
    case EmptyData => "Error: The Excel file is empty or corrupt."
    case Permission => "Error: You do not have permission to access the file."
    case InvalidExcel => "Error: The file is damaged or not a valid Excel file."
    case ValueErr =>
      if Text.Contains(e.message, "Worksheet") then "Error: The file does not contain the expected sheet or is empty."
      else "Unexpected value error: " + e.message
    case _ => "Unknown error while loading the Excel file: " + e.message
  }

  /**
   * `load_excel`: the file must exist, then its path must end in `.xlsx`
   * exactly (case-sensitive), then the frame must be non-empty.
   */
  function LoadExcel(path: string, files: Files): (r: Preview)
    ensures !files.fileExists(path) ==> r == Preview(None, "Error: File not found.")
    ensures files.fileExists(path) && !Text.EndsWith(path, ".xlsx") ==>
              r == Preview(None, "Error: The file does not have the .xlsx extension.")
    ensures r.data.Some? <==>
              && files.fileExists(path) && Text.EndsWith(path, ".xlsx")
              && files.readExcel(path).Success? && !IsEmpty(files.readExcel(path).value)
    ensures r.data.Some? ==> r.data.value == Head(files.readExcel(path).value, 5) && |r.data.value.rows| <= 5
  {
    if !files.fileExists(path) then Preview(None, "Error: File not found.")
    else if !Text.EndsWith(path, ".xlsx") then Preview(None, "Error: The file does not have the .xlsx extension.")
    else match files.readExcel(path)
         case Failure(e) => Preview(None, ExcelError(e))
         case Success(df) =>
           if IsEmpty(df) then Preview(None, "Error: The Excel file is empty.")
           else Preview(Some(Head(df, 5)), "Data successfully loaded from the Excel file.")
  }

  /**
   * Unlike the other loaders, the suffix test is case-sensitive: an existing
   * "book.XLSX" is refused unread.
   */
  lemma UpperCaseXlsxRefused(stem: string, files: Files)
    requires files.fileExists(stem + ".XLSX")
    ensures LoadExcel(stem + ".XLSX", files) == Preview(None, "Error: The file does not have the .xlsx extension.")
  {
    var p := stem + ".XLSX";
    assert p[|p| - 5..] == ".XLSX";
  }

  /** The suffix test admits only `.xlsx`: an existing "book.xls" is refused unread. */
  lemma XlsRefused(stem: string, files: Files)
    requires files.fileExists(stem + ".xls")
    ensures LoadExcel(stem + ".xls", files) == Preview(None, "Error: The file does not have the .xlsx extension.")
  {
    var q := stem + ".xls";
    assert q[|q| - 1] == 's';
  }

  /** A worksheet problem is recognised by the word "Worksheet" in the ValueError's text. */
  lemma WorksheetMessage(before: string, after: string)
    ensures ExcelError(ReaderError(ValueErr, before + "Worksheet" + after))
            == "Error: The file does not contain the expected sheet or is empty."
  {
    ContainsInfix(before, "Worksheet", after);
  }

  lemma {:induction false} ContainsInfix(before: string, sub: string, after: string)
    ensures Text.Contains(before + sub + after, sub)
  {
    var s := before + sub + after;
    if before == [] {
      assert s[..|sub|] == sub;
    } else {
      ContainsInfix(before[1..], sub, after);
      assert s[1..] == before[1..] + sub + after;
    }
  }

  /** The `except` clauses of `load_sqlite`. */
  function SqliteError(e: ReaderError): string
  {
    if e.kind == Database then "Error: Invalid or corrupted SQLite database."
    else "Error loading SQLite: " + e.message
  }

  /** `load_sqlite`: an empty catalog is refused; otherwise the first table's first five rows. */
  function LoadSqlite(path: string, files: Files): (r: Preview)
    ensures files.tableNames(path).Success? && files.tableNames(path).value == [] ==>
              r == Preview(None, "Error: The database contains no tables.")
    ensures r.data.Some? <==>
              && files.tableNames(path).Success? && files.tableNames(path).value != []
              && files.readTable(path, files.tableNames(path).value[0]).Success?
    ensures r.data.Some? ==>
              r.data.value == Head(files.readTable(path, files.tableNames(path).value[0]).value, 5)
              && |r.data.value.rows| <= 5
  {
    match files.tableNames(path)
    case Failure(e) => Preview(None, SqliteError(e))
    case Success(names) =>
      if names == [] then Preview(None, "Error: The database contains no tables.")
      else match files.readTable(path, names[0])
           case Failure(e) => Preview(None, SqliteError(e))
           case Success(df) => Preview(Some(Head(df, 5)), "Data successfully loaded from SQLite database.")
  }

  /** What the menu does with the option typed. */
  datatype MenuResult = Shown(preview: Preview) | InvalidOption

  const InvalidOptionText := "Invalid option. Please select an option between 1 and 3."

  /** `import_data_menu` after its two prompts. */
  function ImportDataMenu(option: string, path: string, files: Files): (r: MenuResult)
    ensures r.InvalidOption? <==> option !in {"1", "2", "3"}
    ensures option == "1" ==> r == Shown(LoadCsv(path, files))
    ensures option == "2" ==> r == Shown(LoadExcel(path, files))
    ensures option == "3" ==> r == Shown(LoadSqlite(path, files))
  {
    if option == "1" then Shown(LoadCsv(path, files))
    else if option == "2" then Shown(LoadExcel(path, files))
    else if option == "3" then Shown(LoadSqlite(path, files))
    else InvalidOption
  }

  /** Every preview any menu option returns has at most five rows. */
  lemma MenuPreviewBounded(option: string, path: string, files: Files)
    ensures ImportDataMenu(option, path, files).Shown? && ImportDataMenu(option, path, files).preview.data.Some? ==>
              |ImportDataMenu(option, path, files).preview.data.value.rows| <= 5
  {
  }
}
