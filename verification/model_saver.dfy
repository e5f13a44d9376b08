/**
 * Saving a fitted model (src/interface/ModelSaver.py): the record written to
 * the archive and the formula stored in it.  The save dialog's answer is the
 * parameter `path` and `joblib.dump` is the parameter `dump`, which answers
 * with the text of the exception it raised, if any.
 */
module ModelSaving {
  import opened Wrappers
  import Text
  import LinearModelView

  /** A value stored under one key of the record. */
  datatype Field =
    | Model(fit: LinearModelView.Fit)
    | Names(names: seq<string>)
    | Name(name: string)
    | Number(x: real)

  type Record = map<string, Field>

  const Keys: set<string> := {"model", "input_columns", "output_column", "mse", "r2", "description", "formula"}

  /**
   * `get_formula`: `output = b + c1 * x1 + ... + cn * xn`, with the intercept
   * FIRST and ` * ` between coefficient and column.
   */
  function SavedFormula(fit: LinearModelView.Fit, inputs: seq<string>, output: string, fmt: real -> string): string
  {
    output + " = " + fmt(fit.intercept) + " + " + Text.Join(" + ", LinearModelView.Terms(fit.coef, inputs, " * ", fmt))
  }

  /**
   * The stored formula lists the intercept and then one term per
   * (coefficient, column) pair, all joined by " + "; with no term it ends in
   * a dangling " + ".
   */
  lemma SavedFormulaShape(fit: LinearModelView.Fit, inputs: seq<string>, output: string, fmt: real -> string)
    ensures var t := LinearModelView.Terms(fit.coef, inputs, " * ", fmt);
            && (t != [] ==> SavedFormula(fit, inputs, output, fmt) == output + " = " + Text.Join(" + ", [fmt(fit.intercept)] + t))
            && (t == [] ==> SavedFormula(fit, inputs, output, fmt) == output + " = " + fmt(fit.intercept) + " + ")
  {
    var t := LinearModelView.Terms(fit.coef, inputs, " * ", fmt);
    if t != [] {
      Text.JoinCons(" + ", fmt(fit.intercept), t);
    }
  }

  /** The dictionary `save_model` hands to `joblib.dump`. */
  function RecordOf(fit: LinearModelView.Fit, inputs: seq<string>, output: string, mse: real, r2: real,
                    description: string, fmt: real -> string): (r: Record)
    ensures r.Keys == Keys
  {
    map["model" := Model(fit), "input_columns" := Names(inputs), "output_column" := Name(output),
        "mse" := Number(mse), "r2" := Number(r2), "description" := Name(description),
        "formula" := Name(SavedFormula(fit, inputs, output, fmt))]
  }

  /** The saved model's contents, read back from a record. */
  datatype Saved = Saved(fit: LinearModelView.Fit, inputs: seq<string>, output: string, mse: real, r2: real,
                         description: string, formula: string)

  function Unpack(r: Record): Option<Saved>
  {
    if Keys <= r.Keys && r["model"].Model? && r["input_columns"].Names? && r["output_column"].Name?
       && r["mse"].Number? && r["r2"].Number? && r["description"].Name? && r["formula"].Name?
    then Some(Saved(r["model"].fit, r["input_columns"].names, r["output_column"].name, r["mse"].x,
                    r["r2"].x, r["description"].name, r["formula"].name))
    else None
  }

  /**
   * Everything passed to `save_model` is recoverable from the record, and the
   * formula stored beside it is the one computed from the model and columns.
   */
  lemma RecordRoundTrip(fit: LinearModelView.Fit, inputs: seq<string>, output: string, mse: real, r2: real,
                        description: string, fmt: real -> string)
    ensures Unpack(RecordOf(fit, inputs, output, mse, r2, description, fmt))
            == Some(Saved(fit, inputs, output, mse, r2, description, SavedFormula(fit, inputs, output, fmt)))
  {
  }

  /**
   * One run of `save_model` as written: whether `joblib.dump` was called,
   * whether it wrote the file, and the exception that escapes, if any.
   */
  datatype SaveRun = SaveRun(dumped: bool, written: bool, escaped: Option<string>)

  const NoShowMessage := "AttributeError: 'ModelSaver' object has no attribute 'show_message'"

  /**
   * `save_model` as written.  The class defines no `show_message`, so each of
   * its three calls raises AttributeError.  On an empty path that ends the
   * call before any dump.  Otherwise the dump runs; the success message
   * raises inside the `try`, the `except` clause catches that and calls
   * `show_message` again, which raises out of the method.
   */
  function SaveModelAsWritten(path: string, fit: LinearModelView.Fit, inputs: seq<string>, output: string,
                              mse: real, r2: real, description: string, fmt: real -> string,
                              dump: (Record, string) -> Option<string>): (run: SaveRun)
    ensures run.dumped <==> path != ""
    ensures run.written <==> path != "" && dump(RecordOf(fit, inputs, output, mse, r2, description, fmt), path).None?
    ensures run.escaped == Some(NoShowMessage)
  {
    if path == "" then SaveRun(false, false, Some(NoShowMessage))
    else
      var err := dump(RecordOf(fit, inputs, output, mse, r2, description, fmt), path);
      SaveRun(true, err.None?, Some(NoShowMessage))
  }

  /**
   * No input lets `save_model` as written finish: every call ends in the
   * AttributeError, and when the dump succeeded the file has been written
   * even so.  The intended behaviour (SaveModel) reports success exactly in
   * that case.
   */
  lemma SaveModelAsWrittenAlwaysRaises(path: string, fit: LinearModelView.Fit, inputs: seq<string>, output: string,
                                       mse: real, r2: real, description: string, fmt: real -> string,
                                       dump: (Record, string) -> Option<string>)
    ensures SaveModelAsWritten(path, fit, inputs, output, mse, r2, description, fmt, dump).escaped.Some?
    ensures SaveModelAsWritten(path, fit, inputs, output, mse, r2, description, fmt, dump).written <==>
            SaveModel(path, fit, inputs, output, mse, r2, description, fmt, dump).title == "Éxito"
  {
  }

  /** The message box `save_model` is meant to end with. */
  datatype Message = Message(title: string, text: string)

  /**
   * `save_model` as intended, with a message box for each outcome: an empty
   * path is a cancelled dialog and nothing is written; otherwise the record
   * is dumped to the path and the message reports success or the
   * exception's text.
   */
  function SaveModel(path: string, fit: LinearModelView.Fit, inputs: seq<string>, output: string, mse: real,
                     r2: real, description: string, fmt: real -> string,
                     dump: (Record, string) -> Option<string>): (m: Message)
    ensures path == "" ==> m == Message("Cancelado", "No se seleccionó ningún archivo.")
    ensures m.title == "Éxito" <==>
              path != "" && dump(RecordOf(fit, inputs, output, mse, r2, description, fmt), path).None?
    ensures m.title == "Error" <==>
              path != "" && dump(RecordOf(fit, inputs, output, mse, r2, description, fmt), path).Some?
    ensures m.title == "Error" ==>
              Text.EndsWith(m.text, dump(RecordOf(fit, inputs, output, mse, r2, description, fmt), path).value)
  {
    if path == "" then Message("Cancelado", "No se seleccionó ningún archivo.")
    else
      match dump(RecordOf(fit, inputs, output, mse, r2, description, fmt), path)
      case None => Message("Éxito", "Modelo guardado exitosamente.")
      case Some(e) => Message("Error", "No se pudo guardar el modelo: " + e)
  }

  /** A cancelled dialog never consults `dump`: the outcome is the same whatever it would do. */
  lemma CancelIgnoresDump(fit: LinearModelView.Fit, inputs: seq<string>, output: string, mse: real, r2: real,
                          description: string, fmt: real -> string,
                          dump1: (Record, string) -> Option<string>, dump2: (Record, string) -> Option<string>)
    ensures SaveModel("", fit, inputs, output, mse, r2, description, fmt, dump1)
            == SaveModel("", fit, inputs, output, mse, r2, description, fmt, dump2)
  {
  }
}
