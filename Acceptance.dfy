/** The model-acceptance filters of the poster and manuscript figure
    scripts: each `df_filt_*` table keeps the events whose fits pass a
    conjunction (or, for `q_or_exp`, a disjunction) of threshold tests on
    R², `q`, `sm_range` and, in the poster script, the observation
    frequency. */
module Acceptance {
  import opened Missing
  import opened Tables
  import opened Results

  /** The thresholds a script accepts a fit by; `obsFreq` is absent where
      the script has no observation-frequency test. */
  datatype Criteria = Criteria(r2: real, q: real, smRange: real, obsFreq: Option<real>)

  /** The poster script: R² ≥ 0.7, q > 1e-3, sm_range > 0.1 and
      n_days/event_length > 0.33333. */
  const Poster: Criteria := Criteria(0.7, 0.001, 0.1, Some(0.33333))

  /** The manuscript script: R² ≥ 0.7, q > 1e-3, sm_range > 0.3. */
  const Manuscript: Criteria := Criteria(0.7, 0.001, 0.3, None)

  /** `n_days / event_length > threshold` on the integer columns: pandas
      divides as floats, so n/0 is +inf (passes) for n > 0, 0/0 is NaN
      (fails), and a missing operand fails. */
  predicate ObsFreqAbove(nDays: Option<nat>, eventLength: Option<int>, threshold: real) {
    && nDays.Some? && eventLength.Some?
    && if eventLength.value == 0 then nDays.value > 0
       else (nDays.value as real) / (eventLength.value as real) > threshold
  }

  /** The tests every filter shares: the fit spans enough of the range and,
      where tested, enough days of the event were observed. */
  predicate Covers(row: EventRow, c: Criteria) {
    && Gt(row.smRange, c.smRange)
    && (c.obsFreq.Some? ==> ObsFreqAbove(row.nDays, row.eventLength, c.obsFreq.value))
  }

  function QTest(c: Criteria): EventRow -> bool {
    (row: EventRow) => Ge(row.qR2, c.r2) && Gt(row.qQ, c.q) && Covers(row, c)
  }

  function AllQTest(c: Criteria): EventRow -> bool {
    (row: EventRow) => Ge(row.qR2, c.r2) && Covers(row, c)
  }

  function ExpTest(c: Criteria): EventRow -> bool {
    (row: EventRow) => Ge(row.expR2, c.r2) && Covers(row, c)
  }

  function QOrExpTest(c: Criteria): EventRow -> bool {
    (row: EventRow) => (Ge(row.qR2, c.r2) || Ge(row.expR2, c.r2)) && Covers(row, c)
  }

  function QAndExpTest(c: Criteria): EventRow -> bool {
    (row: EventRow) => Ge(row.qR2, c.r2) && Ge(row.expR2, c.r2) && Covers(row, c)
  }

  /** `q > q_thresh`, the one test `df_filt_q` adds to `df_filt_allq`. */
  function QAboveTest(c: Criteria): EventRow -> bool {
    (row: EventRow) => Gt(row.qQ, c.q)
  }

  /** `df_filt_q`: events the q model fits well, with non-negligible q. */
  function FiltQ(rows: seq<EventRow>, c: Criteria): seq<EventRow> {
    Select(rows, QTest(c))
  }

  /** `df_filt_allq`: events the q model fits well, whatever q is. */
  function FiltAllQ(rows: seq<EventRow>, c: Criteria): seq<EventRow> {
    Select(rows, AllQTest(c))
  }

  /** `df_filt_exp`: events the exponential model fits well. */
  function FiltExp(rows: seq<EventRow>, c: Criteria): seq<EventRow> {
    Select(rows, ExpTest(c))
  }

  /** `df_filt_q_or_exp`: events either model fits well. */
  function FiltQOrExp(rows: seq<EventRow>, c: Criteria): seq<EventRow> {
    Select(rows, QOrExpTest(c))
  }

  /** `df_filt_q_and_exp`: events both models fit well. */
  function FiltQAndExp(rows: seq<EventRow>, c: Criteria): seq<EventRow> {
    Select(rows, QAndExpTest(c))
  }

  /** A poster `df_filt_q` row is exactly an event with q-model R² ≥ 0.7,
      q > 0.001, sm_range > 0.1 and more than 0.33333 observed days per
      event day; a NaN in any tested column rejects it. */
  lemma PosterQAccepted(rows: seq<EventRow>)
    ensures forall row :: row in FiltQ(rows, Poster) <==>
      && row in rows
      && row.qR2.Some? && row.qR2.value >= 0.7
      && row.qQ.Some? && row.qQ.value > 0.001
      && row.smRange.Some? && row.smRange.value > 0.1
      && row.nDays.Some? && row.eventLength.Some?
      && (if row.eventLength.value == 0 then row.nDays.value > 0
          else (row.nDays.value as real) / (row.eventLength.value as real) > 0.33333)
  {
    SelectMembers(rows, QTest(Poster));
  }

  /** A manuscript `df_filt_q` row is exactly an event with q-model
      R² ≥ 0.7, q > 0.001 and sm_range > 0.3, whatever its day counts. */
  lemma ManuscriptQAccepted(rows: seq<EventRow>)
    ensures forall row :: row in FiltQ(rows, Manuscript) <==>
      && row in rows
      && row.qR2.Some? && row.qR2.value >= 0.7
      && row.qQ.Some? && row.qQ.value > 0.001
      && row.smRange.Some? && row.smRange.value > 0.3
  {
    SelectMembers(rows, QTest(Manuscript));
  }

  /** `df_filt_q ⊆ df_filt_allq`: it is `df_filt_allq` filtered further by
      `q > q_thresh`. */
  lemma QWithinAllQ(rows: seq<EventRow>, c: Criteria)
    ensures FiltQ(rows, c) == Select(FiltAllQ(rows, c), QAboveTest(c))
    ensures Kept(rows, QTest(c)) <= Kept(rows, AllQTest(c))
  {
    SelectThen(rows, AllQTest(c), QAboveTest(c), QTest(c));
  }

  /** `df_filt_q_and_exp` is the intersection of `df_filt_allq` and
      `df_filt_exp`: as index labels, and as `df_filt_allq` filtered by the
      exponential test. */
  lemma AndIsIntersection(rows: seq<EventRow>, c: Criteria)
    ensures Kept(rows, QAndExpTest(c)) == Kept(rows, AllQTest(c)) * Kept(rows, ExpTest(c))
    ensures FiltQAndExp(rows, c) == Select(FiltAllQ(rows, c), ExpTest(c))
  {
    SelectThen(rows, AllQTest(c), ExpTest(c), QAndExpTest(c));
  }

  /** `df_filt_q_or_exp` is the union of `df_filt_allq` and `df_filt_exp`. */
  lemma OrIsUnion(rows: seq<EventRow>, c: Criteria)
    ensures Kept(rows, QOrExpTest(c)) == Kept(rows, AllQTest(c)) + Kept(rows, ExpTest(c))
    ensures forall row :: row in FiltQOrExp(rows, c) <==> row in FiltAllQ(rows, c) || row in FiltExp(rows, c)
  {
    SelectMembers(rows, QOrExpTest(c));
    SelectMembers(rows, AllQTest(c));
    SelectMembers(rows, ExpTest(c));
  }

  /** Hence both-fit events are among the either-fit events. */
  lemma AndWithinOr(rows: seq<EventRow>, c: Criteria)
    ensures Kept(rows, QAndExpTest(c)) <= Kept(rows, QOrExpTest(c))
    ensures FiltQAndExp(rows, c) == Select(FiltQOrExp(rows, c), QAndExpTest(c))
  {
    SelectNarrow(rows, QAndExpTest(c), QOrExpTest(c));
  }
}
