# Linear-regression workbench: loading, cleaning and model views

This Dafny project models the logic of a small desktop tool for linear regression on tabular data. The user:

- loads a CSV, Excel or SQLite file into a pandas DataFrame;
- shows it in a grid;
- handles missing values in the selected columns with one of four strategies;
- fits a linear model, which the tool shows as a formula with its error metrics;
- attaches a description and saves the model.

The repository also holds three stand-alone loaders with their own check orders and messages:

- `import_file`;
- the `load_file` / `preprocess_data` pair of the scikit-learn example;
- the menu-driven import script.

Modules, one per source file plus shared definitions:

- `Wrappers`: `Option` and `Result`.
- `Text`: lower-casing, `strip`, `join`, `endswith`, `in` and `os.path.splitext` on strings.
- `Stats`: sum, mean, minimum, maximum, sorting and median over `real`.
- `Frames`: the DataFrame.
  - `Frame` is the value: ordered unique column names, a dtype tag per column (float64, int64, object), and rows of cells that are missing, a number or a text.
  - `Table` is the object that `dropna`/`fillna` change in place.
  - It also holds the row filter and the column fills.
- `Readers`: the foreign readers as a `Files` value of functions, the exception classes they raise, and the extension dispatch.
- `DataTableView`: the table widget (`src/interface/DataTable.py`). It is a class holding the frame and a 2-D `array2` grid of cell texts, filled by nested loops.
- `DataPreprocessing`: the missing-data panel (`src/interface/DataPreprocessor.py`). It covers:
  - the columns to process;
  - the four strategies, applied in place;
  - the fill loop;
  - the empty-cell highlighting.
- `LinearModelView`: the regression panel (`src/interface/LinearModel.py`). It covers:
  - the selection guard;
  - the formula with the intercept last;
  - the metrics text;
  - the one-column plot policy;
  - the description label.
- `ModelSaving`: `src/interface/ModelSaver.py`. It covers the formula with the intercept first, the record of seven fields, and the save outcome.
- `FileReader`: `src/file_reader.py`. The extension whitelist comes before any access, and later failures are wrapped.
- `HousingExample`: `src/linear-models_examples/scikit-learn-test.py`. Existence is checked first and errors become `None`; it also covers the `total_bedrooms` fill and the X/y split.
- `ImportScript`: `import-de-datos1.py`. It covers the three loaders and the option menu.

Calls into libraries are parameters of the members that make them:

- `Files` stands for `read_csv`, `read_excel`, the `sqlite_master` catalog query, `SELECT * FROM t` and `os.path.exists`;
- `parseFloat` is `float()`;
- `fmt` is the `:.3f` format;
- `numText` is `str` of a number;
- `fitter` and `scorer` are `LinearRegression.fit` and the error metrics; the fit answers with the exception's text when it raises, and it is required to raise on data with a missing cell or no row;
- `dump` is `joblib.dump`, which answers with the exception's text if it raised;
- `path` is the save dialog's answer.

Missing values are `None` cells. Means and medians are exact `real` arithmetic.

What the code does, stated where a reader might expect otherwise:

- The regression panel puts the intercept LAST in its formula, and the saver puts it first.
- The panel scores the fit on the rows it was fitted on; no held-out split exists in that code.
- The empty-cell test is applied to the grid text of every entry column, whatever its dtype, and never to the target.
- Failures are raised, printed or answered as `False` rather than returned as typed errors.
- The saved record holds no table snapshot.
- `apply_preprocessing` refuses only an empty entry list or a `None` target. The regression panel also refuses an empty target name.

## Model

| member | source | states |
|---|---|---|
| Readers.FormatOf | src/interface/DataTable.py:35-41 | `.csv` selects CSV, `.xlsx`/`.xls` Excel, `.sqlite`/`.db` SQLite, and exactly the other extensions select nothing |
| Readers.DispatchByLastExtension | src/interface/DataTable.py:32 | for a named file the dispatch uses only the last extension, lower-cased, whatever precedes it |
| Readers.NoExtensionNoFormat | src/interface/DataTable.py:32 | a path without an extension (including a dot-file such as ".csv") selects no reader |
| Readers.UpperCaseExcel | src/interface/DataTable.py:32 | "name.XLSX" is read as Excel: the extension test ignores case |
| Text.ExtensionShape | src/interface/DataTable.py:32 | `splitext` yields either nothing or a dot-led suffix of the path without another dot or separator |
| Text.Strip | src/interface/LinearModel.py:152 | `strip()` gives the infix left after removing a blank-only prefix and a blank-only suffix; it is empty exactly when the text is all blanks, and otherwise starts and ends with a non-blank |
| Text.StripIdempotent | src/interface/LinearModel.py:152 | stripping a stripped text changes nothing |
| Frames.Head | src/file_reader.py:25 | `head(n)` keeps the columns and the first `min(n, rows)` rows |
| Frames.KeepComplete | src/interface/DataPreprocessor.py:128 | the rows kept by `dropna(subset=...)` are original rows with no missing value at the processed positions |
| Frames.KeepCompleteOccurrences | src/interface/DataPreprocessor.py:128 | each complete row is kept as often as it occurs, and each incomplete row is dropped |
| Frames.KeepCompleteCount | src/interface/DataPreprocessor.py:128 | the rows left are the original count minus the rows with a missing processed cell, each counted once |
| Frames.KeepCompleteAppend | src/interface/DataPreprocessor.py:128 | the filter distributes over concatenation, so the kept rows stay in their original order |
| Frames.KeepCompleteIdempotent | src/interface/DataPreprocessor.py:128 | dropping incomplete rows a second time changes nothing |
| Frames.DropMissing | src/interface/DataPreprocessor.py:128 | `dropna(subset=...)` keeps the columns and dtypes and yields a well-formed frame |
| Frames.FillColumn | src/interface/DataPreprocessor.py:134 | `fillna` on one column turns exactly its missing cells into the value and leaves every other column as it was |
| Frames.FillConstant | src/interface/DataPreprocessor.py:152 | filling the processed columns with a constant keeps the columns and row count and yields a well-formed frame; cell (i, j) becomes the value exactly when its column is processed and it was missing, and is otherwise unchanged; a processed column's dtype follows the filled-type rule and every other dtype is kept |
| Frames.FillWithMeanKeepsMean | src/interface/DataPreprocessor.py:134 | filling a column with the mean of its numbers leaves that mean unchanged |
| Frames.Table.DropNa | src/interface/DataPreprocessor.py:128 | the in-place `dropna` leaves the table holding `DropMissing` of its old contents |
| Frames.Table.FillNa | src/interface/DataPreprocessor.py:134 | the in-place `fillna` leaves the table holding `FillColumn` of its old contents |
| Frames.Table.FillNaColumns | src/interface/DataPreprocessor.py:152 | the column-block assignment leaves the table holding `FillConstant` of its old contents |
| Stats.MeanWithinRange | src/interface/DataPreprocessor.py:134 | the mean of a non-empty sample lies between its minimum and maximum |
| Stats.Sort | src/interface/DataPreprocessor.py:140 | sorting yields an ordered permutation of the sample |
| Stats.MedianWithinRange | src/interface/DataPreprocessor.py:140 | the median of a non-empty sample lies between its minimum and maximum |
| Stats.MedianOfOddIsValue | src/interface/DataPreprocessor.py:140 | the median of an odd-sized sample is one of its values |
| DataTableView.Dispatched | src/interface/DataTable.py:32-51 | no branch runs exactly for an unrecognised extension; an empty SQLite catalog stops the load; otherwise SQLite reads the catalog's first table |
| DataTableView.DataTable.constructor | src/interface/DataTable.py:7-10 | the widget starts hidden with an empty frame |
| DataTableView.DataTable.FillGrid | src/interface/DataTable.py:60-66 | the grid gets one row per frame row and one column per frame column, and cell (i, j) holds `str` of the frame's cell (i, j) |
| DataTableView.DataTable.LoadFile | src/interface/DataTable.py:30-82 | a raising reader changes nothing; an empty catalog hides the table and answers false; a read frame replaces the held one; an unknown extension keeps it; the answer is true exactly when the held frame is non-empty, and then the table is visible with a grid that shows the frame |
| DataTableView.DataTable.UpdateTable | src/interface/DataTable.py:84-92 | the widget holds the new frame and its grid shows that frame cell by cell |
| DataPreprocessing.ColumnsToProcess | src/interface/DataPreprocessor.py:121-125 | the entry columns in order, then the target only when it is not among them; membership is exactly entry-or-target and no column repeats |
| DataPreprocessing.StatOf | src/interface/DataPreprocessor.py:133-140 | the mean or median exists exactly when the column has a number, and lies between its minimum and maximum |
| DataPreprocessing.FillOne | src/interface/DataPreprocessor.py:133-134 | one pass of the fill loop keeps columns, dtypes and row count |
| DataPreprocessing.FillStats | src/interface/DataPreprocessor.py:131-141 | the whole fill loop keeps columns, dtypes and row count |
| DataPreprocessing.FillStatsCells | src/interface/DataPreprocessor.py:131-141 | after the loop, a missing cell of a processed numeric column holds the statistic of that column's original numbers; every other cell is unchanged |
| DataPreprocessing.FillStatsIdempotent | src/interface/DataPreprocessor.py:131-141 | running Fill with Mean or Median a second time changes nothing |
| DataPreprocessing.FillConstantIdempotent | src/interface/DataPreprocessor.py:152 | Fill with Constant a second time changes nothing |
| DataPreprocessing.Preprocess | src/interface/DataPreprocessor.py:127-152 | every strategy keeps the column names and yields a well-formed frame |
| DataPreprocessing.PreprocessIdempotent | src/interface/DataPreprocessor.py:127-152 | every strategy applied to its own result changes nothing |
| DataPreprocessing.RemoveRowsKeepsCompleteRows | src/interface/DataPreprocessor.py:127-128 | Remove Rows keeps exactly the complete rows with their multiplicities, loses one row per incomplete row, and keeps columns and dtypes |
| DataPreprocessing.CompleteByName | src/interface/DataPreprocessor.py:128 | a row is complete exactly when each processed column's cell is present |
| DataPreprocessing.FillMeanKeepsColumnMean | src/interface/DataPreprocessor.py:131-135 | Fill with Mean leaves the filled column's mean as it was |
| DataPreprocessing.ParsedConstant | src/interface/DataPreprocessor.py:148-151 | the constant is a number exactly when `float()` accepts the text, and then it is the number `float()` gives; otherwise it is the raw text |
| DataPreprocessing.ConstantFillCells | src/interface/DataPreprocessor.py:148-152 | Fill with Constant puts the parsed constant into every missing cell of a processed column and leaves its other cells alone; a numeric constant keeps every dtype, and a text constant turns a numeric processed column with a missing cell into object |
| DataPreprocessing.EmptyTextCases | src/interface/DataPreprocessor.py:180 | a cell text counts as empty exactly when it is "" or one of the eight case spellings of "nan" |
| DataPreprocessing.DataPreprocessor.constructor | src/interface/DataPreprocessor.py:7-15 | the panel works on the table widget it is given |
| DataPreprocessing.DataPreprocessor.ApplyPreprocessing | src/interface/DataPreprocessor.py:111-156 | with no entry or no target, or Fill with Constant with no text, nothing changes; otherwise the frame becomes the strategy's result over the columns to process and the grid is rebuilt from it |
| DataPreprocessing.DataPreprocessor.ApplyStrategy | src/interface/DataPreprocessor.py:127-152 | the strategy chain leaves the table holding `Preprocess` of its old contents for the chosen strategy |
| DataPreprocessing.DataPreprocessor.FillLoop | src/interface/DataPreprocessor.py:132-134 | the in-place loop over the columns leaves the table holding `FillStats` of its old contents |
| DataPreprocessing.DataPreprocessor.FillStep | src/interface/DataPreprocessor.py:133-134 | one iteration fills the column in place when its dtype is numeric and it has a number, leaving the table holding `FillOne` of its old contents |
| DataPreprocessing.DataPreprocessor.HighlightEmptyCells | src/interface/DataPreprocessor.py:166-181 | with no entry column only a warning; otherwise a grid cell is marked exactly when it lies in an entry column and its text is empty, so every missing cell of an entry column, which the grid shows as "nan", is marked when the grid shows the frame |
| LinearModelView.Selected | src/interface/LinearModel.py:93-95 | X has one row per frame row holding the entry columns' cells in entry order, and y is the target column |
| LinearModelView.TermsAt | src/interface/LinearModel.py:102-104 | `zip` gives one term per coefficient/column pair, as many as the shorter list, term k being coefficient k, `*`, column k |
| LinearModelView.RegressionFormulaShape | src/interface/LinearModel.py:102-104 | the formula is `target = ` then the terms and the intercept, LAST, joined by " + "; with no term it reads `target =  + b` |
| LinearModelView.RegressionFormulaStartsWithTarget | src/interface/LinearModel.py:102 | the formula starts with the target's name and " = " |
| LinearModelView.PlotFor | src/interface/LinearModel.py:119-126 | a scatter of the single entry column against the target exactly when there is one entry column, and a blank canvas otherwise |
| LinearModelView.PlotAsWrittenRaisesOnFreshPanel | src/interface/LinearModel.py:119-126 | on a fresh panel with two or more entry columns the code as written raises, where the intended policy shows a blank canvas |
| LinearModelView.PlotAsWrittenAgreesOtherwise | src/interface/LinearModel.py:117-126 | the code as written raises exactly when no canvas exists and there is not one entry column, and otherwise agrees with the intended policy |
| LinearModelView.DescriptionLabel | src/interface/LinearModel.py:152-158 | a description blank after stripping gives no label; otherwise the label is exactly "Model Description:\n" followed by `strip()` of the text |
| LinearModelView.DescriptionLabelOfStripped | src/interface/LinearModel.py:152-158 | stripping the description before saving it changes nothing: the label depends only on the stripped text |
| LinearModelView.LinearModel.constructor | src/interface/LinearModel.py:17-57 | the panel starts with no estimator and the placeholder formula, metrics and description labels |
| LinearModelView.LinearModel.CreateModel | src/interface/LinearModel.py:82-115 | the description is cleared first; with no entry or an unset or empty target nothing else changes and the answer is false; otherwise a fresh estimator replaces the model; a fit that raises (always so with a missing cell or no row) leaves it unfitted, keeps labels and plot, and surfaces the error; a fit that succeeds becomes the model, the formula label shows its formula, the metrics are scored on the same data, the plot follows the policy, and the answer is true |
| LinearModelView.LinearModel.PlotRegression | src/interface/LinearModel.py:117-148 | the plot area follows the one-column policy and nothing else changes |
| LinearModelView.LinearModel.SaveDescription | src/interface/LinearModel.py:150-158 | a blank description is refused and the label is kept; otherwise the label shows the stripped description |
| ModelSaving.SavedFormulaShape | src/interface/ModelSaver.py:32-38 | the stored formula is `output = ` then the intercept FIRST and the `coef * col` terms in column order, joined by " + "; with no term it ends in a dangling " + " |
| ModelSaving.RecordOf | src/interface/ModelSaver.py:20-22 | the record has exactly the keys model, input_columns, output_column, mse, r2, description and formula |
| ModelSaving.RecordRoundTrip | src/interface/ModelSaver.py:20-22 | every argument of the save can be read back from the record, with the formula derived from the model and columns |
| ModelSaving.SaveModel | src/interface/ModelSaver.py:9-30 | the save as intended: an empty path cancels; otherwise success exactly when the dump raises nothing, and an error message that ends with the exception's text |
| ModelSaving.SaveModelAsWritten | src/interface/ModelSaver.py:9-30 | the code as written: the dump runs exactly when a path was chosen, the file is written exactly when the dump also raises nothing, and every path ends in the AttributeError for the missing `show_message` |
| ModelSaving.SaveModelAsWrittenAlwaysRaises | src/interface/ModelSaver.py:16-30 | every call raises AttributeError, and the file is written exactly when the intended save reports success |
| ModelSaving.CancelIgnoresDump | src/interface/ModelSaver.py:15-17 | a cancelled save does not depend on the writer at all: nothing is written |
| FileReader.ImportFile | src/file_reader.py:5-57 | an extension outside the five allowed ones fails with the format message; every later failure carries the "corrupted or invalid" prefix; a preview has at most five rows |
| FileReader.RejectsBeforeAccess | src/file_reader.py:7-12 | a rejected extension fails identically whatever the file system holds: it is checked before any access |
| FileReader.MissingExcelIsWrapped | src/file_reader.py:17-18 | a missing Excel file surfaces as the wrapped "File not found at" message |
| FileReader.SpreadsheetOutcome | src/file_reader.py:16-36 | CSV and Excel succeed exactly when the reader returns a non-empty frame, previewing its first five rows |
| FileReader.SqliteOutcome | src/file_reader.py:41-52 | SQLite fails on an empty catalog and otherwise previews five rows of the catalog's first table, with no emptiness check |
| HousingExample.LoadFile | src/linear-models_examples/scikit-learn-test.py:9-54 | a missing path gives the existence message and `None`; an unknown extension gives the unsupported-type message; a returned frame is non-empty with the success message |
| HousingExample.ExistenceFirst | src/linear-models_examples/scikit-learn-test.py:16-17 | a missing path is reported the same way whatever the extension or readers |
| HousingExample.LoadedIsRead | src/linear-models_examples/scikit-learn-test.py:23-45 | CSV and Excel load exactly when the reader gives a non-empty frame; SQLite loads the first table of a non-empty catalog in full; an empty catalog gives the no-tables message |
| HousingExample.Without | src/linear-models_examples/scikit-learn-test.py:68 | the columns kept by `drop` are exactly those not named |
| HousingExample.KeptIndices | src/linear-models_examples/scikit-learn-test.py:68 | the kept columns' positions are increasing and point at the kept names |
| HousingExample.WithoutIdempotent | src/linear-models_examples/scikit-learn-test.py:68 | dropping the same columns again drops nothing more |
| HousingExample.WithoutNoDup | src/linear-models_examples/scikit-learn-test.py:68 | dropping columns keeps the names distinct |
| HousingExample.DropColumns | src/linear-models_examples/scikit-learn-test.py:68 | `drop(columns=...)` keeps the other columns in order with each row's cells under the same names |
| HousingExample.BedroomsFillSpec | src/linear-models_examples/scikit-learn-test.py:63-64 | the fill touches only `total_bedrooms`; with a number present no missing cell remains and the column mean is unchanged; with none the frame is unchanged |
| HousingExample.SplitXY | src/linear-models_examples/scikit-learn-test.py:67-73 | without the target the answer is (None, None); without `ocean_proximity` the drop raises; otherwise X is every other column in order and y is the target column, row for row |
| HousingExample.PreprocessData | src/linear-models_examples/scikit-learn-test.py:57-73 | the passed table is filled in place, or left alone when the mean raises, and the split is taken from the filled table |
| ImportScript.LoadCsv | import-de-datos1.py:6-14 | success exactly when the reader succeeds, even on an empty frame, returning its first five rows |
| ImportScript.LoadExcel | import-de-datos1.py:17-56 | missing file first, then the exact `.xlsx` suffix, then a non-empty read; a success is the first five rows |
| ImportScript.UpperCaseXlsxRefused | import-de-datos1.py:24-26 | an existing ".XLSX" file is refused unread: the suffix test is case-sensitive |
| ImportScript.XlsRefused | import-de-datos1.py:24-26 | an existing ".xls" file is refused unread: only ".xlsx" passes |
| ImportScript.WorksheetMessage | import-de-datos1.py:49-52 | a ValueError mentioning "Worksheet" gives the missing-sheet message |
| ImportScript.LoadSqlite | import-de-datos1.py:59-74 | an empty catalog is refused; otherwise success exactly when the first table reads, returning its first five rows |
| ImportScript.ImportDataMenu | import-de-datos1.py:77-94 | options "1", "2" and "3" run the CSV, Excel and SQLite loaders, and every other option is invalid |
| ImportScript.MenuPreviewBounded | import-de-datos1.py:87-92 | whatever the option, a returned preview has at most five rows |

## Left out

- Text.Lower and Text.Strip: only ASCII letters are lower-cased. Only the ASCII whitespace that `str.strip()` removes is stripped: tab to carriage return, 0x1C to 0x1F and the space. Python also lower-cases the rest of Unicode and strips Unicode spaces such as U+0085, U+00A0 and U+2000 to U+200A; the model does neither.
- Text.Extension: `/` is the only path separator, as in POSIX `os.path.splitext`. On Windows `\` also separates.
- File parsing by pandas, openpyxl and sqlite3 is not modelled. The readers are the `Files` parameter, and each reader either returns a well-formed frame or raises one of the listed exception classes.
- `float()`, the `:.3f` format and `str` of a number are parameters. Their text is not modelled.
- `LinearRegression.fit`, `predict` and the MAE/RMSE metrics are parameters. Least squares and floating-point arithmetic are not modelled.
- Matplotlib drawing and the widget-removal loop of `plot_regression` are not modelled. Only which plot the panel shows is modelled.
- Frames: an int64 column may hold missing cells in the model. pandas would turn such a column into float64; both count as numeric for every test the code makes.
- DataPreprocessing.ParsedConstant: `float("nan")` and `float("inf")` are not representable as `real`. The parse answer is taken as given.
- `train_model` in `src/linear-models_examples/scikit-learn-test.py` is not modelled. It covers the 70/30 split, the fit and the printed training metrics: foreign numerics with printing only.
- The `__main__` blocks that read a path from standard input and chain the calls are not modelled.
- FileReader.ImportFile: the SQLite `LIMIT 5` query is modelled as the first five rows of a full read of the table. This is the same rows, but a failure while reading rows past the fifth is not told apart.
- Printing: previews and messages that the loaders print are returned as values, and the styling of message boxes is not modelled.
- Closing the SQLite connection is not modelled.
- HousingExample.BedroomsFilled: an object column holding any text makes the mean raise. An object column holding only numbers is averaged like a numeric one.
- DataTableView.DataTable.LoadFile: an exception from a reader propagates out of `load_file` in the code, and its callers (`src/interface/Interface.py:96`, `src/interface/MainInterface.py:75`) do not catch it. Here it is the `Failure` answer with the widget unchanged. The unused `FileLoaderThread` of `src/interface/Thread.py` is not part of this model.
- DataPreprocessing.DataPreprocessor.HighlightEmptyCells: the model has one missing marker, which the grid shows as "nan". pandas holds a SQL NULL read into an object column as Python `None`; the grid shows it as "None" and the empty-text test does not mark it. The contract's "every missing cell is marked" therefore covers NaN only.
- DataPreprocessing.DataPreprocessor.FillLoop: `df[column].fillna(..., inplace=True)` is modelled as writing through to the frame, as pandas does before Copy-on-Write. Under Copy-on-Write (pandas 3.0) the chained call fills a copy and the frame is left unchanged.
- The grid's header labels, resizing and scrolling modes are not modelled.
- The column selector is not modelled. Its answer is the `entry`/`target` parameters, whose names are columns of the frame.
- Widget and window code is not part of this model: `src/interface/ColumnSelector.py`, `Interface.py`, `MainInterface.py`, `Menu.py`, `Thread.py`, the earlier GUI copies under `src/final_interface_*`, and the toolkit demos under `src/libraries_examples`.
- `src/linear_models/statsmodelstest.py` and `src/linear_models/test_pickle.py` are not modelled: they are foreign fitting and pickling demos.
- Reloading a saved model and predicting from it are not in the modelled files. `RecordRoundTrip` states what the record keeps.

## Findings

| source | as written | input that shows it | evidently intended | confidence | as-written member | corrected member |
|---|---|---|---|---|---|---|
| src/interface/LinearModel.py:119-126 | the branch for "not exactly one entry column" first removes `self.canvas`, which only the one-column branch ever assigns | a fresh panel, entry columns ["a", "b"] and a target: `create_model` raises AttributeError instead of returning True | show a blank canvas with the warning and return True | not executed | LinearModelView.PlotAsWrittenRaisesOnFreshPanel | LinearModelView.PlotFor |
| src/interface/ModelSaver.py:16-30 | `save_model` calls `self.show_message`, which the class does not define: the cancel branch raises at once, and after `joblib.dump` both the success call and the one in the `except` handler raise AttributeError | a save dialog answer "m.joblib" and a dump that succeeds: the file is written, then AttributeError escapes and no message is shown | show the cancel, success or error message box and return normally | not executed | ModelSaving.SaveModelAsWrittenAlwaysRaises | ModelSaving.SaveModel |
