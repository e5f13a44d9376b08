/**
 * The regression panel (src/interface/LinearModel.py): the selection guard,
 * the formula text built from the fitted coefficients, the error-metric text,
 * the plotting policy and the description box.  The fit and the metrics come
 * from scikit-learn and are parameters; `:.3f` formatting is the parameter `fmt`.
 */
module LinearModelView {
  import opened Wrappers
  import opened Frames
  import Text
  import DataTableView

  /** A fitted linear model: `coef_` and `intercept_`. */
  datatype Fit = Fit(coef: seq<real>, intercept: real)

  /** `df[entry_columns].values` and `df[target_column].values`. */
  datatype Data = Data(x: seq<seq<Cell>>, y: seq<Cell>)

  function Selected(f: Frame, entry: seq<string>, target: string): (d: Data)
    requires WellFormed(f) && (forall k :: 0 <= k < |entry| ==> entry[k] in f.columns) && target in f.columns
    ensures |d.x| == |d.y| == |f.rows|
    ensures forall i, k :: 0 <= i < |f.rows| && 0 <= k < |entry| ==>
              |d.x[i]| == |entry| && d.x[i][k] == f.rows[i][IndexOf(f.columns, entry[k])]
  {
    var idx := Indices(f.columns, entry);
    Data(seq(|f.rows|, i requires 0 <= i < |f.rows| =>
           assert RowFits(f.types, f.rows[i]);
           seq(|idx|, k requires 0 <= k < |idx| => f.rows[i][idx[k]])),
         Column(f, IndexOf(f.columns, target)))
  }

  /** `f"{coef:.3f}{op}{col}" for coef, col in zip(coefs, cols)`. */
  function Terms(coef: seq<real>, cols: seq<string>, op: string, fmt: real -> string): seq<string>
  {
    if coef == [] || cols == [] then []
    else [fmt(coef[0]) + op + cols[0]] + Terms(coef[1..], cols[1..], op, fmt)
  }

  /**
   * `zip` pairs the coefficients with the columns position by position and
   * stops at the shorter list: one term per pair, in column order.
   */
  lemma {:induction false} TermsAt(coef: seq<real>, cols: seq<string>, op: string, fmt: real -> string)
    ensures var t := Terms(coef, cols, op, fmt);
            && |t| == (if |coef| <= |cols| then |coef| else |cols|)
            && forall k :: 0 <= k < |t| ==> t[k] == fmt(coef[k]) + op + cols[k]
  {
    if coef != [] && cols != [] {
      TermsAt(coef[1..], cols[1..], op, fmt);
    }
  }

  /** The formula of `create_model`: `target = c1*x1 + ... + cn*xn + intercept`. */
  function RegressionFormula(target: string, fit: Fit, entry: seq<string>, fmt: real -> string): string
  {
    target + " = " + Text.Join(" + ", Terms(fit.coef, entry, "*", fmt)) + " + " + fmt(fit.intercept)
  }

  /**
   * The formula starts with `target = ` and lists the terms in column order
   * with the intercept LAST; with no term it degenerates to `target =  + b`.
   */
  lemma RegressionFormulaShape(target: string, fit: Fit, entry: seq<string>, fmt: real -> string)
    ensures var t := Terms(fit.coef, entry, "*", fmt);
            && Text.EndsWith(RegressionFormula(target, fit, entry, fmt), " + " + fmt(fit.intercept))
            && (t != [] ==> RegressionFormula(target, fit, entry, fmt) == target + " = " + Text.Join(" + ", t + [fmt(fit.intercept)]))
            && (t == [] ==> RegressionFormula(target, fit, entry, fmt) == target + " =  + " + fmt(fit.intercept))
  {
    var t := Terms(fit.coef, entry, "*", fmt);
    var s := RegressionFormula(target, fit, entry, fmt);
    var tail := " + " + fmt(fit.intercept);
    assert s == (target + " = " + Text.Join(" + ", t)) + tail;
    assert s[|s| - |tail|..] == tail;
    if t != [] {
      Text.JoinSnoc(" + ", t, fmt(fit.intercept));
    }
  }

  /** The formula begins with the target's name followed by " = ". */
  lemma RegressionFormulaStartsWithTarget(target: string, fit: Fit, entry: seq<string>, fmt: real -> string)
    ensures var s := RegressionFormula(target, fit, entry, fmt);
            |target| + 3 <= |s| && s[..|target| + 3] == target + " = "
  {
    var s := RegressionFormula(target, fit, entry, fmt);
    var rest := Text.Join(" + ", Terms(fit.coef, entry, "*", fmt)) + " + " + fmt(fit.intercept);
    assert s == (target + " = ") + rest;
  }

  /** The error label: mean absolute error and root mean squared error. */
  function MetricsText(mae: real, rmse: real, fmt: real -> string): string
  {
    "MAE: " + fmt(mae) + "\nRMSE: " + fmt(rmse)
  }

  /** `not entry_columns or not target_column`: an empty target name counts as missing. */
  predicate SelectionGiven(entry: seq<string>, target: Option<string>)
  {
    entry != [] && target.Some? && target.value != ""
  }

  /** What the plot area shows. */
  datatype Plot =
    | Initial                       // nothing drawn yet
    | Blank                         // an empty canvas (with a warning)
    | Scatter(x: string, y: string) // data against the regression line

  /**
   * The plotting policy as intended: a scatter of the single entry column
   * against the target when there is exactly one entry column, and an empty
   * canvas with a warning otherwise.
   */
  function PlotFor(entry: seq<string>, target: string): (p: Plot)
    ensures p.Scatter? <==> |entry| == 1
    ensures p.Scatter? ==> p.x == entry[0] && p.y == target
    ensures !p.Scatter? ==> p == Blank
  {
    if |entry| != 1 then Blank else Scatter(entry[0], target)
  }

  /**
   * `plot_regression` as written: the empty-canvas branch first removes
   * `self.canvas`, an attribute that only the scatter branch ever sets.
   * Without a previous scatter it raises AttributeError.
   */
  function PlotAsWritten(hasCanvas: bool, entry: seq<string>, target: string): Result<Plot, string>
  {
    if |entry| != 1 then
      if hasCanvas then Success(Blank) else Failure("AttributeError: 'LinearModel' object has no attribute 'canvas'")
    else Success(Scatter(entry[0], target))
  }

  /**
   * The first model built with two or more entry columns on a fresh panel
   * raises instead of showing the empty canvas, so `create_model` never
   * reaches `return True`; the intended policy shows the blank canvas.
   */
  lemma PlotAsWrittenRaisesOnFreshPanel(entry: seq<string>, target: string)
    requires |entry| >= 2
    ensures PlotAsWritten(false, entry, target).Failure?
    ensures PlotFor(entry, target) == Blank
  {
  }

  /** Whenever the as-written plot does not raise, it agrees with the intended policy. */
  lemma PlotAsWrittenAgreesOtherwise(hasCanvas: bool, entry: seq<string>, target: string)
    ensures PlotAsWritten(hasCanvas, entry, target).Success? ==>
              PlotAsWritten(hasCanvas, entry, target).value == PlotFor(entry, target)
    ensures PlotAsWritten(hasCanvas, entry, target).Failure? <==> !hasCanvas && |entry| != 1
  {
  }

  const DescriptionHeading := "Model Description:\n"

  /** The description label text, or nothing when the stripped text is blank. */
  function DescriptionLabel(text: string): (r: Option<string>)
    ensures r.None? <==> forall k :: 0 <= k < |text| ==> Text.IsSpace(text[k])
    ensures r.Some? ==> |DescriptionHeading| < |r.value| && r.value[..|DescriptionHeading|] == DescriptionHeading
    ensures r.Some? ==> var d := r.value[|DescriptionHeading|..];
              |d| <= |text| && !Text.IsSpace(d[0]) && !Text.IsSpace(d[|d| - 1])
    ensures r.Some? ==> r.value == DescriptionHeading + Text.Strip(text)
  {
    var d := Text.Strip(text);
    if d == [] then None else Some(DescriptionHeading + d)
  }

  /** Stripping the description before saving it makes no difference to the label. */
  lemma DescriptionLabelOfStripped(text: string)
    ensures DescriptionLabel(Text.Strip(text)) == DescriptionLabel(text)
  {
    Text.StripIdempotent(text);
  }

  /** The selected data have no row, or a missing cell among the features or the target. */
  predicate Unfittable(d: Data)
  {
    || |d.y| == 0
    || (exists i :: 0 <= i < |d.y| && d.y[i].None?)
    || (exists i, k :: 0 <= i < |d.x| && 0 <= k < |d.x[i]| && d.x[i][k].None?)
  }

  /**
   * What is known of `LinearRegression.fit`: it raises ValueError on an
   * empty sample and on NaN in the features or the target.
   */
  ghost predicate RejectsUnfittable(fitter: Data -> Result<Fit, string>)
  {
    forall d :: Unfittable(d) ==> fitter(d).Failure?
  }

  /** What `self.model` holds. */
  datatype Estimator =
    | NoModel       // `None`, before any model was created
    | Unfitted      // a `LinearRegression()` whose `fit` raised
    | Fitted(fit: Fit)

  class LinearModel {
    var model: Estimator
    var formulaLabel: string
    var errorLabel: string
    var descriptionText: string
    var descriptionLabel: string
    var plot: Plot

    constructor ()
      ensures model == NoModel && plot == Initial
      ensures formulaLabel == "Linear Regression Formula will appear here."
      ensures errorLabel == "Error Metrics will appear here."
      ensures descriptionLabel == "Model Description:" && descriptionText == ""
    {
      model := NoModel;
      formulaLabel := "Linear Regression Formula will appear here.";
      errorLabel := "Error Metrics will appear here.";
      descriptionLabel := "Model Description:";
      descriptionText := "";
      plot := Initial;
    }

    /**
     * `create_model`: clear the description, then check the selection.
     * Without an entry column or a target it warns and returns None (false
     * here), leaving the model and the labels untouched.  Otherwise it
     * replaces the model by a new estimator and fits it on the selected data;
     * when the fit raises, the estimator stays unfitted, the labels keep their
     * text and the error propagates.  After a fit it shows the formula, scores
     * the fit on the SAME data (there is no held-out part), updates the plot
     * and returns True.
     */
    method CreateModel(table: DataTableView.DataTable, entry: seq<string>, target: Option<string>,
                       fitter: Data -> Result<Fit, string>, scorer: (Fit, Data) -> (real, real),
                       fmt: real -> string)
      returns (r: Result<bool, string>)
      requires table.Valid()
      requires forall k :: 0 <= k < |entry| ==> entry[k] in table.df.columns
      requires target.Some? && target.value != "" ==> target.value in table.df.columns
      requires RejectsUnfittable(fitter)
      modifies this
      ensures descriptionText == "" && descriptionLabel == ""
      ensures r == Success(false) <==> !SelectionGiven(entry, target)
      ensures !SelectionGiven(entry, target) ==> model == old(model)
      ensures !(SelectionGiven(entry, target) && r.Success?) ==>
                formulaLabel == old(formulaLabel) && errorLabel == old(errorLabel) && plot == old(plot)
      ensures SelectionGiven(entry, target) ==>
                var d := Selected(table.df.Value(), entry, target.value);
                && (Unfittable(d) ==> r.Failure?)
                && (r.Failure? <==> fitter(d).Failure?)
                && (r.Failure? ==> model == Unfitted && r.error == fitter(d).error)
                && (r.Success? ==>
                      var fit := fitter(d).value;
                      && r.value
                      && model == Fitted(fit)
                      && formulaLabel == "Linear Regression Formula: " + RegressionFormula(target.value, fit, entry, fmt)
                      && errorLabel == MetricsText(scorer(fit, d).0, scorer(fit, d).1, fmt)
                      && plot == PlotFor(entry, target.value))
    {
      descriptionText := "";
      descriptionLabel := "";
      if !SelectionGiven(entry, target) {
        return Success(false);
      }
      var t := target.value;
      var d := Selected(table.df.Value(), entry, t);
      model := Unfitted;
      var fitted := fitter(d);
      if fitted.Failure? {
        return Failure(fitted.error);
      }
      var fit := fitted.value;
      model := Fitted(fit);
      formulaLabel := "Linear Regression Formula: " + RegressionFormula(t, fit, entry, fmt);
      var (mae, rmse) := scorer(fit, d);
      errorLabel := MetricsText(mae, rmse, fmt);
      PlotRegression(entry, t);
      return Success(true);
    }

    /** `plot_regression` with the intended policy (see PlotAsWritten for the code as written). */
    method PlotRegression(entry: seq<string>, target: string)
      modifies this
      ensures plot == PlotFor(entry, target)
      ensures model == old(model) && formulaLabel == old(formulaLabel) && errorLabel == old(errorLabel)
      ensures descriptionText == old(descriptionText) && descriptionLabel == old(descriptionLabel)
    {
      plot := PlotFor(entry, target);
    }

    /**
     * `save_description`: a text that is blank after stripping is refused
     * with a warning (`saved` false) and the label keeps its text; otherwise
     * the label shows "Model Description:" and the stripped text.
     */
    method SaveDescription() returns (saved: bool)
      modifies this
      ensures saved <==> DescriptionLabel(descriptionText).Some?
      ensures saved ==> descriptionLabel == DescriptionLabel(descriptionText).value
      ensures !saved ==> descriptionLabel == old(descriptionLabel)
      ensures descriptionText == old(descriptionText) && model == old(model) && plot == old(plot)
      ensures formulaLabel == old(formulaLabel) && errorLabel == old(errorLabel)
    {
      var shown := DescriptionLabel(descriptionText);
      if shown.None? {
        return false;
      }
      descriptionLabel := shown.value;
      return true;
    }
  }
}
