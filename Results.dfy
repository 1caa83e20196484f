/** The table of fitted drydown events the figure scripts read, and the
    columns they add to it one statement at a time: the R² difference, the
    denormalised loss coefficients, `sm_range`, `n_days` and
    `event_length`. */
module Results {
  import opened Missing
  import opened Tables
  import opened EventArray

  /** Soil thickness in millimetres (`z_mm`). */
  const SoilDepthMm: real := 50.0

  /** One fitted drydown event. The first group of columns is read from the
      results file; the second group is added by the script and reads as
      missing until its statement has run. Dates are day numbers; a missing
      date is `NaT`. */
  datatype EventRow = EventRow(
    qR2: Num, expR2: Num, sigmoidR2: Num,
    qQ: Num, qK: Num, sigmoidETmax: Num,
    maxSm: Num, minSm: Num, smText: string,
    eventStart: Option<int>, eventEnd: Option<int>,
    diffR2: Num, qETmax: Num, qKDenormalized: Num, sigmoidETmaxDenormalized: Num,
    smRange: Num, nDays: Option<nat>, eventLength: Option<int>)

  /** The non-linear model a script compares with the exponential one. */
  datatype Nonlinear = QModel | SigmoidModel

  function NonlinearR2(row: EventRow, m: Nonlinear): Num {
    match m
    case QModel => row.qR2
    case SigmoidModel => row.sigmoidR2
  }

  /** `diff_R2`: how much better the non-linear fit explains the drydown. */
  function DiffR2(nonlinear: Num, exponential: Num): Num {
    Sub(nonlinear, exponential)
  }

  /** A positive difference means the non-linear fit has the higher R², a
      negative one that the exponential fit has; NaN in either gives NaN,
      which is neither. */
  lemma DiffR2Sign(nonlinear: Num, exponential: Num)
    ensures Gt(DiffR2(nonlinear, exponential), 0.0)
      <==> nonlinear.Some? && exponential.Some? && nonlinear.value > exponential.value
    ensures Lt(DiffR2(nonlinear, exponential), 0.0)
      <==> nonlinear.Some? && exponential.Some? && nonlinear.value < exponential.value
  {
  }

  /** A coefficient fitted on normalised soil moisture, expressed in the
      units of the observed range: `k * (max_sm - min_sm)`. */
  function Denormalize(k: Num, maxSm: Num, minSm: Num): Num {
    Mul(k, Sub(maxSm, minSm))
  }

  /** The loss at the top of the range in mm/day: `k * (max_sm - min_sm) * z_mm`. */
  function ETmax(k: Num, maxSm: Num, minSm: Num): Num {
    Mul(Mul(k, Sub(maxSm, minSm)), Some(SoilDepthMm))
  }

  /** Denormalising is undone by dividing by the range, whenever the range
      is non-degenerate; and the ETmax column is the denormalised
      coefficient spread over the 50 mm soil layer. */
  lemma DenormalizeInverse(k: Num, maxSm: Num, minSm: Num)
    ensures NotEqual(maxSm, minSm) && maxSm.Some? && minSm.Some?
      ==> Div(Denormalize(k, maxSm, minSm), Sub(maxSm, minSm)) == k
    ensures Div(ETmax(k, maxSm, minSm), Some(SoilDepthMm)) == Denormalize(k, maxSm, minSm)
  {
    var d := Denormalize(k, maxSm, minSm);
    if k.Some? && maxSm.Some? && minSm.Some? && maxSm.value != minSm.value {
      var w := maxSm.value - minSm.value;
      var r := Div(d, Sub(maxSm, minSm));
      assert r.value * w == k.value * w;
      Cancel(r.value, k.value, w);
    }
    if d.Some? {
      var e := ETmax(k, maxSm, minSm);
      var r := Div(e, Some(SoilDepthMm));
      assert r.value * SoilDepthMm == d.value * SoilDepthMm;
      Cancel(r.value, d.value, SoilDepthMm);
    }
  }

  /** `event_length`: whole days from the event's start to its end. */
  function EventLength(start: Option<int>, end: Option<int>): (r: Option<int>)
    ensures r.Some? <==> start.Some? && end.Some?
    ensures r.Some? ==> start.value + r.value == end.value
  {
    if start.Some? && end.Some? then Some(end.value - start.value) else None
  }

  /** `calculate_sm_range` applied to one row. */
  function SmRangeOf(convert: string -> Option<real>): EventRow -> Outcome<Num> {
    (row: EventRow) => CalculateSmRange(row.smText, row.maxSm, row.minSm, convert)
  }

  /** `calculate_n_days` applied to one row. */
  function NDaysOf(convert: string -> Option<real>): EventRow -> Outcome<nat> {
    (row: EventRow) => NDays(row.smText, convert)
  }

  /** The results table, extended column by column. */
  class ResultsFrame {
    var rows: seq<EventRow>

    constructor(table: seq<EventRow>)
      ensures rows == table
    {
      rows := table;
    }

    /** `df = df.assign(diff_R2=df[nonlinear R²] - df["exp_r_squared"])`. */
    method AssignDiffR2(m: Nonlinear)
      modifies this
      ensures |rows| == |old(rows)|
      ensures forall i :: 0 <= i < |rows| ==>
        rows[i] == old(rows[i]).(diffR2 := DiffR2(NonlinearR2(old(rows[i]), m), old(rows[i]).expR2))
    {
      rows := seq(|rows|, i requires 0 <= i < |rows| reads this =>
        rows[i].(diffR2 := DiffR2(NonlinearR2(rows[i], m), rows[i].expR2)));
    }

    /** `df["q_ETmax"] = ...` then `df["q_k_denormalized"] = ...`. */
    method AssignQDenormalized()
      modifies this
      ensures |rows| == |old(rows)|
      ensures forall i :: 0 <= i < |rows| ==>
        var r := old(rows[i]);
        rows[i] == r.(qETmax := ETmax(r.qK, r.maxSm, r.minSm),
                      qKDenormalized := Denormalize(r.qK, r.maxSm, r.minSm))
    {
      rows := seq(|rows|, i requires 0 <= i < |rows| reads this =>
        rows[i].(qETmax := ETmax(rows[i].qK, rows[i].maxSm, rows[i].minSm)));
      rows := seq(|rows|, i requires 0 <= i < |rows| reads this =>
        rows[i].(qKDenormalized := Denormalize(rows[i].qK, rows[i].maxSm, rows[i].minSm)));
    }

    /** `df["sigmoid_ETmax_denormalized"] = sigmoid_ETmax * (max_sm - min_sm) * z_mm`. */
    method AssignSigmoidDenormalized()
      modifies this
      ensures |rows| == |old(rows)|
      ensures forall i :: 0 <= i < |rows| ==>
        var r := old(rows[i]);
        rows[i] == r.(sigmoidETmaxDenormalized := ETmax(r.sigmoidETmax, r.maxSm, r.minSm))
    {
      rows := seq(|rows|, i requires 0 <= i < |rows| reads this =>
        rows[i].(sigmoidETmaxDenormalized := ETmax(rows[i].sigmoidETmax, rows[i].maxSm, rows[i].minSm)));
    }

    /** `df["sm_range"] = df.apply(calculate_sm_range, axis=1)`: a row the
        helper raises on stops the script before the column is written. */
    method AssignSmRange(convert: string -> Option<real>) returns (failure: Option<Failure>)
      modifies this
      ensures failure.None? <==> ApplyRows(old(rows), SmRangeOf(convert)).Ok?
      ensures failure.Some? ==> rows == old(rows)
      ensures failure.None? ==> |rows| == |old(rows)| && forall i :: 0 <= i < |rows| ==>
        rows[i] == old(rows[i]).(smRange := SmRangeOf(convert)(old(rows[i])).value)
    {
      match ApplyRows(rows, SmRangeOf(convert)) {
        case Err(e) =>
          failure := Some(e);
        case Ok(col) =>
          rows := seq(|rows|, i requires 0 <= i < |rows| && |col| == |rows| reads this =>
            rows[i].(smRange := col[i]));
          failure := None;
      }
    }

    /** `df["n_days"] = df.apply(calculate_n_days, axis=1)`. */
    method AssignNDays(convert: string -> Option<real>) returns (failure: Option<Failure>)
      modifies this
      ensures failure.None? <==> ApplyRows(old(rows), NDaysOf(convert)).Ok?
      ensures failure.Some? ==> rows == old(rows)
      ensures failure.None? ==> |rows| == |old(rows)| && forall i :: 0 <= i < |rows| ==>
        rows[i] == old(rows[i]).(nDays := Some(NDaysOf(convert)(old(rows[i])).value))
    {
      match ApplyRows(rows, NDaysOf(convert)) {
        case Err(e) =>
          failure := Some(e);
        case Ok(col) =>
          rows := seq(|rows|, i requires 0 <= i < |rows| && |col| == |rows| reads this =>
            rows[i].(nDays := Some(col[i])));
          failure := None;
      }
    }

    /** `df["event_length"] = (event_end - event_start).dt.days`. */
    method AssignEventLength()
      modifies this
      ensures |rows| == |old(rows)|
      ensures forall i :: 0 <= i < |rows| ==>
        var r := old(rows[i]);
        rows[i] == r.(eventLength := EventLength(r.eventStart, r.eventEnd))
    {
      rows := seq(|rows|, i requires 0 <= i < |rows| reads this =>
        rows[i].(eventLength := EventLength(rows[i].eventStart, rows[i].eventEnd)));
    }
  }
}
