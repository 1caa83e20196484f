/** The two-stage acceptance filters of the sigmoid analysis script: a first
    stage keeps the events a model (or a combination of models) fits with
    R² ≥ 0.7, and each `_2` stage keeps the first-stage events whose fit
    spans more than 30 % of the soil-moisture range. */
module SigmoidAcceptance {
  import opened Missing
  import opened Tables
  import opened Results

  /** `success_modelfit_thresh`. */
  const FitThreshold: real := 0.7

  /** `sm_range_thresh`. */
  const RangeThreshold: real := 0.3

  function SgmTest(): EventRow -> bool {
    (row: EventRow) => Ge(row.sigmoidR2, FitThreshold)
  }

  function ExpTest(): EventRow -> bool {
    (row: EventRow) => Ge(row.expR2, FitThreshold)
  }

  function SgmAndQTest(): EventRow -> bool {
    (row: EventRow) => Ge(row.sigmoidR2, FitThreshold) && Ge(row.qR2, FitThreshold)
  }

  function SgmOrExpTest(): EventRow -> bool {
    (row: EventRow) => Ge(row.sigmoidR2, FitThreshold) || Ge(row.expR2, FitThreshold)
  }

  function SgmAndExpTest(): EventRow -> bool {
    (row: EventRow) => Ge(row.sigmoidR2, FitThreshold) && Ge(row.expR2, FitThreshold)
  }

  /** The second-stage test, `sm_range > sm_range_thresh`. */
  function RangeTest(): EventRow -> bool {
    (row: EventRow) => Gt(row.smRange, RangeThreshold)
  }

  /** A first-stage test and the range test as one conjunction. */
  function WithRange(first: EventRow -> bool): EventRow -> bool {
    (row: EventRow) => first(row) && Gt(row.smRange, RangeThreshold)
  }

  /** `df_filt_sgm`. */
  function FiltSgm(rows: seq<EventRow>): seq<EventRow> {
    Select(rows, SgmTest())
  }

  /** `df_filt_exp`. */
  function FiltExp(rows: seq<EventRow>): seq<EventRow> {
    Select(rows, ExpTest())
  }

  /** `df_filt_sgm_and_q`. */
  function FiltSgmAndQ(rows: seq<EventRow>): seq<EventRow> {
    Select(rows, SgmAndQTest())
  }

  /** `df_filt_sgm_or_exp`. */
  function FiltSgmOrExp(rows: seq<EventRow>): seq<EventRow> {
    Select(rows, SgmOrExpTest())
  }

  /** `df_filt_sgm_and_exp`. */
  function FiltSgmAndExp(rows: seq<EventRow>): seq<EventRow> {
    Select(rows, SgmAndExpTest())
  }

  /** Any `_2` table: the first-stage table filtered by the range test. */
  function SecondStage(first: seq<EventRow>): seq<EventRow> {
    Select(first, RangeTest())
  }

  /** Filtering by a first-stage test and then by the range test selects what
      the single conjunction selects; the second stage is a sub-table of the
      first, and holds exactly its rows with `sm_range > 0.3`. */
  lemma SecondStageConjunction(rows: seq<EventRow>, first: EventRow -> bool)
    ensures SecondStage(Select(rows, first)) == Select(rows, WithRange(first))
    ensures forall row :: row in SecondStage(Select(rows, first)) <==>
      row in Select(rows, first) && row.smRange.Some? && row.smRange.value > 0.3
    ensures Kept(rows, WithRange(first)) <= Kept(rows, first)
  {
    SelectThen(rows, first, RangeTest(), WithRange(first));
    SelectMembers(Select(rows, first), RangeTest());
  }

  /** All five `_2` tables of the script are the conjunctions of their
      first-stage test with the range test. */
  lemma StagesConjunctions(rows: seq<EventRow>)
    ensures SecondStage(FiltSgm(rows)) == Select(rows, WithRange(SgmTest()))
    ensures SecondStage(FiltExp(rows)) == Select(rows, WithRange(ExpTest()))
    ensures SecondStage(FiltSgmAndQ(rows)) == Select(rows, WithRange(SgmAndQTest()))
    ensures SecondStage(FiltSgmOrExp(rows)) == Select(rows, WithRange(SgmOrExpTest()))
    ensures SecondStage(FiltSgmAndExp(rows)) == Select(rows, WithRange(SgmAndExpTest()))
  {
    SecondStageConjunction(rows, SgmTest());
    SecondStageConjunction(rows, ExpTest());
    SecondStageConjunction(rows, SgmAndQTest());
    SecondStageConjunction(rows, SgmOrExpTest());
    SecondStageConjunction(rows, SgmAndExpTest());
  }

  /** `df_filt_sgm_and_exp` is `df_filt_sgm` ∩ `df_filt_exp`, and is
      `df_filt_sgm` filtered by the exponential test. */
  lemma SgmAndExpIsIntersection(rows: seq<EventRow>)
    ensures Kept(rows, SgmAndExpTest()) == Kept(rows, SgmTest()) * Kept(rows, ExpTest())
    ensures FiltSgmAndExp(rows) == Select(FiltSgm(rows), ExpTest())
  {
    SelectThen(rows, SgmTest(), ExpTest(), SgmAndExpTest());
  }

  /** `df_filt_sgm_or_exp` is `df_filt_sgm` ∪ `df_filt_exp`. */
  lemma SgmOrExpIsUnion(rows: seq<EventRow>)
    ensures Kept(rows, SgmOrExpTest()) == Kept(rows, SgmTest()) + Kept(rows, ExpTest())
    ensures forall row :: row in FiltSgmOrExp(rows) <==> row in FiltSgm(rows) || row in FiltExp(rows)
  {
    SelectMembers(rows, SgmOrExpTest());
    SelectMembers(rows, SgmTest());
    SelectMembers(rows, ExpTest());
  }

  /** `df_filt_sgm_and_q ⊆ df_filt_sgm`. */
  lemma SgmAndQWithinSgm(rows: seq<EventRow>)
    ensures Kept(rows, SgmAndQTest()) <= Kept(rows, SgmTest())
    ensures FiltSgmAndQ(rows) == Select(FiltSgm(rows), SgmAndQTest())
  {
    SelectNarrow(rows, SgmAndQTest(), SgmTest());
  }
}
