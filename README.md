# smap-drydown: event post-processing, drydown masking and SMAP/ISMN sync

This project models the sequential logic of the smap-drydown analysis
scripts, which study soil-moisture drydowns. It covers three parts.

- **Post-processing of fitted drydown events.** This logic appears in the
  poster, manuscript and sigmoid figure scripts.
  - Each results row stores the event's soil-moisture array as the text
    numpy printed for it.
  - `calculate_sm_range` and `calculate_n_days` re-parse that text. Every
    line break becomes an extra `np.nan` and every space-preceded `nan`
    becomes `np.nan`. The brackets are stripped and the text is split on
    whitespace.
  - From the parsed array the scripts derive the observed range over
    `max_sm - min_sm` and the entry count.
  - The scripts add the derived columns `diff_R2`, `q_ETmax`,
    `q_k_denormalized`, `sigmoid_ETmax_denormalized`, `sm_range`,
    `n_days` and `event_length` to the table, one statement at a time.
  - The `df_filt_*` acceptance filters select events by threshold tests.
  - Two summaries are modelled: the q > 1 share per (aridity bin,
    woody-cover bin) group, and the point where the R² trendline meets
    the 1:1 line.
- **Drydown masking and envelope indices**
  (`2_code_to_analyze/test_fit_lines_to_Ltheta_vs_PET.py`).
  - The day-ahead loss `dSdt(t+1)`.
  - The drydown-day mask `values_while_drydown`.
  - The paired NaN deletion for one PET quantile.
  - `hl_envelopes_idx`.
- **`SMAPxISMN.load_data`** (`2_code_to_analyze/test_calc_metrics.py`).
  - The "too far" warning.
  - The choice of the in-situ sensor.
  - ISMN and SMAP quality control.
  - The daily AM/PM SMAP mean.
  - The inner join of SMAP and ISMN on date.
  - Blanking of the days where either centred rolling mean is null.

Modelling conventions:

- **Missing values.** A value that may be NaN is `Num = Option<real>`.
  Every comparison with NaN is false and `!=` with NaN is true, as in
  numpy. Arithmetic is exact (`real`).
- **Exceptions.** An exception a script would raise is a `Failure`
  returned in an `Outcome`:
  - `float()` rejecting a token;
  - `np.nanmax` of an empty array;
  - `range` with step 0;
  - a series read before it was bound.
- **Text to number.** `float()` is the parameter `convert`, and `None`
  means it raised. The tokens `np.nan` and `nan` are wired to missing.
- **Filtered tables.** A filtered table is `Tables.Select`: the rows a
  test accepts, in their original order. `Tables.KeptIndices` gives their
  index labels.
- **Tables extended in place.** A script's table that gains columns is a
  class: `Results.ResultsFrame` and `Drydown.SyncedDays`. The station
  reader `SmapIsmn.SmapIsmnPair` is a class as well. Each method states the
  new state in terms of the pure functions, and lemmas prove what those
  functions mean.
- **Parsing, both ways.** `EventArray` parses the stored text. It also
  models how numpy prints an array: entries separated by blanks, with
  optional line wraps. The parse is proved against that printed form.

## Model

| member | source | states |
|---|---|---|
| EventArray.ParseTokens | notebooks/archive/figures_for_manuscript_AGUposter.py:255-260 | the array has one entry per token; an entry is missing exactly for `np.nan`/`nan` and otherwise is `float(token)`; the array exists iff `float()` accepts every other token, else the failure names the first token that is neither spelling of NaN and that `float()` rejects |
| EventArray.ParseSm | notebooks/archive/figures_for_manuscript_AGUposter.py:249-260 | the parsed array has exactly one entry per whitespace-separated token of the rewritten, bracket-stripped text |
| EventArray.ParsePrinted | notebooks/archive/figures_for_manuscript_AGUposter.py:246-260 | round trip: parsing the text numpy prints for an array gives back its entries, with one extra missing entry before each wrapped line (the same parse appears in the manuscript and sigmoid scripts) |
| EventArray.NDays | notebooks/archive/figures_for_manuscript_AGUposter.py:276-294 | `n_days` is defined iff the parse succeeds and is then the token count, missing entries included |
| EventArray.NDaysPrinted | notebooks/archive/figures_for_manuscript_AGUposter.py:276-298 | `n_days` of a printed array is its number of entries plus its number of line breaks (likewise in the manuscript script) |
| EventArray.NanMax | notebooks/archive/figures_for_manuscript_AGUposter.py:264 | `np.nanmax`: missing iff every entry is missing; otherwise an entry of the array that is at least every other present entry |
| EventArray.NanMin | notebooks/archive/figures_for_manuscript_AGUposter.py:264 | `np.nanmin`: missing iff every entry is missing; otherwise an entry of the array that is at most every other present entry |
| EventArray.SmRange | notebooks/archive/figures_for_manuscript_AGUposter.py:263-267 | NaN when `max_sm == min_sm`; an error iff the bounds differ and the array is empty; a number iff both bounds are present and differ and some entry is present |
| EventArray.CalculateSmRange | notebooks/archive/figures_for_manuscript_AGUposter.py:246-268 | `calculate_sm_range` succeeds iff the parse succeeds and the range is defined on the parsed array, and then equals that range (the manuscript and sigmoid scripts hold the same helper) |
| EventArray.SmRangeSpread | notebooks/archive/figures_for_manuscript_AGUposter.py:263-267 | a defined `sm_range` is (largest − smallest present entry) / (`max_sm − min_sm`) |
| EventArray.SmRangeNonNegative | notebooks/figures_for_manuscript.py:234-240 | with `max_sm > min_sm`, a defined `sm_range` is ≥ 0 whatever the observations |
| EventArray.SmRangeFraction | notebooks/archive/figures_for_manuscript_AGUposter.py:263-267 | a corollary that needs more than the script guarantees: with `max_sm > min_sm` and every entry between the bounds, a defined `sm_range` is at most 1 as well |
| PyText.SplitWords | notebooks/archive/figures_for_manuscript_AGUposter.py:257 | every token of `str.split()` is non-empty and contains no whitespace |
| PyText.SplitJoinSpaced | notebooks/archive/figures_for_manuscript_AGUposter.py:257 | `str.split()` undoes joining non-empty whitespace-free tokens with single spaces |
| PyText.StripWrapped | notebooks/archive/figures_for_manuscript_AGUposter.py:252 | `strip("[]")` of a bracketed text whose inner ends are not brackets returns the inner text |
| PyText.ReplaceAppend | notebooks/archive/figures_for_manuscript_AGUposter.py:250-251 | `str.replace` distributes over a concatenation when no occurrence straddles the junction |
| Tables.ApplyRows | notebooks/archive/figures_for_manuscript_AGUposter.py:272 | `df.apply(f, axis=1)` gives one result per row iff `f` succeeds on every row; otherwise it fails with the failure of the first row `f` fails on |
| Tables.SelectMembers | notebooks/archive/figures_for_manuscript_AGUposter.py:322-327 | a boolean-mask filter keeps exactly the rows of the table that pass the test |
| Results.DiffR2Sign | notebooks/figures_for_manuscript.py:187 | `diff_R2 > 0` iff both R² are present and the non-linear one is higher; `< 0` iff the exponential one is higher; the sigmoid script uses `sigmoid_r_squared` in place of `q_r_squared` |
| Results.DenormalizeInverse | notebooks/archive/figures_for_manuscript_AGUposter.py:218-219 | `q_k_denormalized / (max_sm − min_sm)` gives back `q_k` when the range is non-degenerate; `q_ETmax / 50` is `q_k_denormalized` |
| Results.EventLength | notebooks/archive/figures_for_manuscript_AGUposter.py:299 | `event_length` is defined iff both dates are, and start + length = end |
| Results.ResultsFrame.AssignDiffR2 | notebooks/archive/figures_for_manuscript_AGUposter.py:215 | every row gains `diff_R2` = non-linear R² − exponential R²; nothing else changes |
| Results.ResultsFrame.AssignQDenormalized | notebooks/figures_for_manuscript.py:190-191 | every row gains `q_ETmax = q_k·(max_sm−min_sm)·50` and `q_k_denormalized = q_k·(max_sm−min_sm)`; nothing else changes |
| Results.ResultsFrame.AssignSigmoidDenormalized | notebooks/archive/output_analysis_sigmoid.py:191-193 | every row gains `sigmoid_ETmax·(max_sm−min_sm)·50`; nothing else changes |
| Results.ResultsFrame.AssignSmRange | notebooks/archive/figures_for_manuscript_AGUposter.py:272 | if `calculate_sm_range` succeeds on every row, each row gains its `sm_range`; otherwise the script stops and the table is unchanged |
| Results.ResultsFrame.AssignNDays | notebooks/archive/figures_for_manuscript_AGUposter.py:298 | if the parse succeeds on every row, each row gains its `n_days`; otherwise the table is unchanged |
| Results.ResultsFrame.AssignEventLength | notebooks/archive/figures_for_manuscript_AGUposter.py:299 | every row gains `event_end − event_start` in days; nothing else changes |
| Acceptance.PosterQAccepted | notebooks/archive/figures_for_manuscript_AGUposter.py:314-327 | a row is in `df_filt_q` iff R² ≥ 0.7, q > 1e-3, sm_range > 0.1 and n_days/event_length > 0.33333 (n/0 passes for n > 0), with NaN failing every test |
| Acceptance.ManuscriptQAccepted | notebooks/figures_for_manuscript.py:276-283 | a row is in `df_filt_q` iff R² ≥ 0.7, q > 1e-3 and sm_range > 0.3 |
| Acceptance.QWithinAllQ | notebooks/archive/figures_for_manuscript_AGUposter.py:322-339 | `df_filt_q` is `df_filt_allq` filtered by `q > q_thresh`, so it is a subset; the manuscript filters are the same with sm_range > 0.3 and no frequency test |
| Acceptance.AndIsIntersection | notebooks/archive/figures_for_manuscript_AGUposter.py:335-376 | `df_filt_q_and_exp` = `df_filt_allq` ∩ `df_filt_exp` (as index labels), and = `df_filt_allq` filtered by the exponential test; likewise in the manuscript script |
| Acceptance.OrIsUnion | notebooks/archive/figures_for_manuscript_AGUposter.py:335-365 | `df_filt_q_or_exp` = `df_filt_allq` ∪ `df_filt_exp`; likewise in the manuscript script |
| Acceptance.AndWithinOr | notebooks/archive/figures_for_manuscript_AGUposter.py:358-376 | both-fit events are among the either-fit events |
| SigmoidAcceptance.SecondStageConjunction | notebooks/archive/output_analysis_sigmoid.py:243-244 | filtering by a first-stage test and then `sm_range > 0.3` selects what the conjunction selects; the `_2` table is exactly the first-stage rows with `sm_range > 0.3` |
| SigmoidAcceptance.StagesConjunctions | notebooks/archive/output_analysis_sigmoid.py:243-291 | all five `_2` tables are their first-stage test conjoined with the range test |
| SigmoidAcceptance.SgmAndExpIsIntersection | notebooks/archive/output_analysis_sigmoid.py:285-291 | `df_filt_sgm_and_exp` = `df_filt_sgm` ∩ `df_filt_exp` |
| SigmoidAcceptance.SgmOrExpIsUnion | notebooks/archive/output_analysis_sigmoid.py:272-278 | `df_filt_sgm_or_exp` = `df_filt_sgm` ∪ `df_filt_exp` |
| SigmoidAcceptance.SgmAndQWithinSgm | notebooks/archive/output_analysis_sigmoid.py:259-262 | `df_filt_sgm_and_q` ⊆ `df_filt_sgm` |
| Summaries.Count | notebooks/archive/figures_for_manuscript_AGUposter.py:1833 | a group size is at most the number of events, and zero iff no event is in the group |
| Summaries.CountSelect | notebooks/archive/figures_for_manuscript_AGUposter.py:1832-1833 | a group's q > 1 count never exceeds its total |
| Summaries.QShareTableRows | notebooks/archive/figures_for_manuscript_AGUposter.py:1832-1834 | which groups the merged table lists, and that each row holds `ShareOf(q>1 count, total)` |
| Summaries.ShareOfMeaning | notebooks/archive/figures_for_manuscript_AGUposter.py:1835-1836 | the percentages are defined iff the total is positive; then they sum to 100, the first is count/total in percent, lies in [0, 100] and is positive iff count > 0 |
| Summaries.ObservedShares | notebooks/archive/figures_for_manuscript_AGUposter.py:1832-1836 | with observed groups only: a group is listed iff some event in it has q > 1, and its q > 1 share is in (0, 100] and complements the q ≤ 1 share to 100 |
| Summaries.AllShares | notebooks/archive/figures_for_manuscript_AGUposter.py:1832-1836 | with pandas' default on categorical keys every combination is listed; an empty group's shares are NaN, any other's lie in [0, 100] and sum to 100 |
| Summaries.TrendlineIntersection | notebooks/archive/figures_for_manuscript_AGUposter.py:487 | defined iff the slope is not 1, and then a point of the trendline on the 1:1 line |
| Summaries.IntersectionUnique | notebooks/archive/figures_for_manuscript_AGUposter.py:487 | any point of the trendline on the 1:1 line is the computed intersection |
| Drydown.LossAheadMeaning | 2_code_to_analyze/test_fit_lines_to_Ltheta_vs_PET.py:120-122 | `dSdt(t+1)` is missing on the last day; where present it is ≤ 0 and `sm[t] + dSdt(t+1) = sm[t+1]` |
| Drydown.LossAheadPipeline | 2_code_to_analyze/test_fit_lines_to_Ltheta_vs_PET.py:120-122 | diff, blank the rises, shift back one day: exactly the day-ahead loss (change to the next day when it did not rise, NaN otherwise) |
| Drydown.DrydownPipeline | 2_code_to_analyze/test_fit_lines_to_Ltheta_vs_PET.py:125-130 | the two masked writes leave soil moisture exactly on days in the drydown period with no rain today or tomorrow, NaN elsewhere. A day is in the drydown period when it is not the first day and the loss is present today or yesterday. The first day is never in the period, because its shifted-in NaN is the left operand of `|` |
| Drydown.DrydownValueKept | 2_code_to_analyze/test_fit_lines_to_Ltheta_vs_PET.py:125-130 | a kept value is never on the first day; it is the day's soil moisture, on a day without rain today or tomorrow, and soil moisture did not rise into the next day or from the day before |
| Drydown.DeleteNanPairs | 2_code_to_analyze/test_fit_lines_to_Ltheta_vs_PET.py:142-154 | after `np.delete`, x and y have equal length, no NaN, keep the original order, and a pair is kept iff both members were present |
| Drydown.RetainedLossNonNegative | 2_code_to_analyze/test_fit_lines_to_Ltheta_vs_PET.py:140-154 | every retained `y = −dSdt(t+1)` is present and ≥ 0 |
| Drydown.SyncedDays.AddLossRate | 2_code_to_analyze/test_fit_lines_to_Ltheta_vs_PET.py:120-122 | the `dSdt` column is the blanked difference and `dSdt(t+1)` the day-ahead loss; other columns unchanged |
| Drydown.SyncedDays.MarkDrydown | 2_code_to_analyze/test_fit_lines_to_Ltheta_vs_PET.py:125-130 | `values_while_drydown` becomes the drydown values, NaN on the first day and off the drydown period and the no-rain window; other columns unchanged |
| Drydown.SyncedDays.PairsForQuantile | 2_code_to_analyze/test_fit_lines_to_Ltheta_vs_PET.py:140-154 | x, y of one PET quantile with NaN pairs deleted: equal length, no NaN, and every y ≥ 0 once the loss column is the day-ahead loss |
| Envelopes.SignTurn | 2_code_to_analyze/test_fit_lines_to_Ltheta_vs_PET.py:197-199 | a rise in the sign of the slope is a point no higher than both neighbours and lower than one; a fall the mirror image |
| Envelopes.FlaggedPositions | 2_code_to_analyze/test_fit_lines_to_Ltheta_vs_PET.py:197-199 | `nonzero()[0] + 1` lists exactly the flagged positions shifted by one, ascending |
| Envelopes.TurnsMeaning | 2_code_to_analyze/test_fit_lines_to_Ltheta_vs_PET.py:197-199 | `lmin` holds exactly the local minima, `lmax` exactly the local maxima, both ascending and disjoint |
| Envelopes.Mean | 2_code_to_analyze/test_fit_lines_to_Ltheta_vs_PET.py:204 | `np.mean` is NaN iff the signal is empty, and otherwise the sum over the length |
| Envelopes.CandidatesMeaning | 2_code_to_analyze/test_fit_lines_to_Ltheta_vs_PET.py:202-208 | after the optional split the candidates are the local extrema strictly below (`lmin`) or above (`lmax`) the mean, ascending |
| Envelopes.Best | 2_code_to_analyze/test_fit_lines_to_Ltheta_vs_PET.py:212-214 | `argmin`/`argmax` of a chunk: a position in the chunk at least as good as every other, and strictly better than every earlier one |
| Envelopes.Range | 2_code_to_analyze/test_fit_lines_to_Ltheta_vs_PET.py:212 | `range(lo, hi, step)`: `lo + j·step` below `hi`, and one step more would reach `hi` |
| Envelopes.ThinCount | 2_code_to_analyze/test_fit_lines_to_Ltheta_vs_PET.py:212-214 | thinning keeps ⌈len/d⌉ candidates |
| Envelopes.ThinChunk | 2_code_to_analyze/test_fit_lines_to_Ltheta_vs_PET.py:212-214 | the j-th kept candidate is the first best one of the chunk starting at j·d |
| Envelopes.ThinAscending | 2_code_to_analyze/test_fit_lines_to_Ltheta_vs_PET.py:212-214 | the chosen positions ascend, so the result is a subsequence of the candidates |
| Envelopes.ThinUnit | 2_code_to_analyze/test_fit_lines_to_Ltheta_vs_PET.py:212-214 | with d = 1 the candidates are unchanged |
| Envelopes.ThinStep | 2_code_to_analyze/test_fit_lines_to_Ltheta_vs_PET.py:212-214 | a chunk size of 0 makes `range` raise, a negative one gives no envelope points, a positive one thins |
| Envelopes.ThinKeeps | 2_code_to_analyze/test_fit_lines_to_Ltheta_vs_PET.py:212-214 | a thinning step keeps only candidates, ascending, and changes nothing with d = 1 |
| Envelopes.HlEnvelopesMeaning | 2_code_to_analyze/test_fit_lines_to_Ltheta_vs_PET.py:186-216 | about `HlEnvelopesIdx`, the model of `hl_envelopes_idx`: an error iff a chunk size is 0; otherwise every `lmin` entry is a local minimum and every `lmax` entry a local maximum (below/above the mean with `split`), ascending, empty for a negative chunk size, and all candidates for chunk size 1 |
| SmapIsmn.TooFarIff | 2_code_to_analyze/test_calc_metrics.py:41-44 | the warning `int(dist) >= 100` fires iff the distance is at least 100 m |
| SmapIsmn.IsmnQcKept | 2_code_to_analyze/test_calc_metrics.py:56-57 | rows are dropped by index label, so a reading survives iff every reading with its timestamp is flagged `'G'`; survivors are good and keep their order |
| SmapIsmn.IsmnQcDistinct | 2_code_to_analyze/test_calc_metrics.py:56-57 | with distinct timestamps, a reading survives iff its own flag is `'G'` |
| SmapIsmn.SmapQcKept | 2_code_to_analyze/test_calc_metrics.py:67-74 | an AM (PM) retrieval survives iff its own AM (PM) flag is 0 or 8, and keeps its soil moisture |
| SmapIsmn.SkipNaMeanMeaning | 2_code_to_analyze/test_calc_metrics.py:83 | the skip-NaN AM/PM mean is NaN iff both are; with both present it is their mean, between them; otherwise the present one |
| SmapIsmn.SmapDailyMeaning | 2_code_to_analyze/test_calc_metrics.py:82-84 | a day where both passes survived holds their skip-NaN mean; any non-NaN daily value comes from a day where both passes survived |
| SmapIsmn.JoinDates | 2_code_to_analyze/test_calc_metrics.py:87-88 | the synced days are exactly the days of both daily series, holding both values |
| SmapIsmn.MaskGapsMeaning | 2_code_to_analyze/test_calc_metrics.py:91-95 | the days are kept; where either rolling mean is null both series become NaN; every other day is unchanged |
| SmapIsmn.SyncedMeaning | 2_code_to_analyze/test_calc_metrics.py:56-95 | end to end: the synced days are the intersection of the daily days; a surviving ISMN value is the daily ISMN value; a surviving SMAP value is the skip-NaN mean of two passes that both passed quality control |
| SmapIsmn.SmapIsmnPair.LoadData | 2_code_to_analyze/test_calc_metrics.py:41-97 | the warning flag is set iff the station is too far; with no sensor the method fails (series unbound) and `sm_ts` is unchanged; otherwise `sm_ts` is the synced table built from the last sensor iterated |

## Left out

- File and network I/O, CSV reading and writing, plotting and console output are not modelled. This includes the print-only message at `notebooks/archive/output_analysis_sigmoid.py:267-269`.
- Floating point is not modelled. Values are exact reals and NaN is `None`. Infinity from `n/0` is not a value; only its effect on the observation-frequency test is kept (`n/0 > t` holds for n > 0, and `0/0` is NaN and fails).
- `float()` parsing of numerals is the parameter `convert`. Only `np.nan` and `nan` are fixed to missing.
- `np.polyfit` is not modelled. The trendline's slope and intercept are inputs of `Summaries.TrendlineIntersection`.
- `pd.cut` and `pd.qcut` binning are not modelled. Each event's bins and each day's PET quantile label are inputs.
- pandas `resample('D').mean()` and `rolling(window='7d', center=True)` are function parameters.
  - The statements about the daily SMAP series assume the resample keeps each existing day and its value and adds only NaN days (`FillsGaps`).
  - Nothing is assumed about the rolling mean beyond which days it leaves null.
- `SmapIsmn.SmapIsmnPair.LoadData` does not model the ISMN library or the station search:
  - `get_nearest_station` is not modelled; the distance is an input.
  - The sensor query by variable and depth is not modelled. The input is the sequence of series that `iter_sensors` yields.
  - `df_SMAP['ID'] == 0` is not modelled; the SMAP input is already the date-keyed table of that pixel.
- The drydown and loss equations (`q_drydown`, `exponential_drydown`, `loss_model`, `loss_sigmoid2`) and the curve fits that produce the results table are not part of this model.
- pandas chained assignment (`df[col][mask] = np.nan`) is taken to write through to the table. Copy-on-write is not modelled.
- `Envelopes.HlEnvelopesMeaning` takes a NaN-free signal (`seq<real>`). numpy's NaN propagation inside `np.sign`/`np.argmin` is not modelled.
- Summaries.ObservedShares: the "(0, 100]" bound on `percentage_q_gt_1` holds only when groups are restricted to observed combinations. pandas' default for categorical keys lists every (AI bin, wood bin) combination. There, a group with no q > 1 event has share 0 and an empty group has NaN shares; `Summaries.AllShares` states this default.
- EventArray.SmRange: the code is followed where it goes beyond "NaN exactly when `max_sm == min_sm`":
  - `sm_range` is also NaN when either bound is NaN or every entry is missing;
  - an empty array makes `np.nanmax` raise, which stops the script.
- The line-break rewrite inserts one missing entry per wrapped line, so `n_days` counts line breaks too (`EventArray.NDaysPrinted`). This is modelled as written.
