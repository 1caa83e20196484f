/** `SMAPxISMN.load_data`: quality control of the SMAP satellite retrievals
    and of the in-situ (ISMN) sensor series, the daily SMAP mean of the AM
    and PM passes, the inner join of the two daily series on date, and the
    blanking of the days where either centred 7-day rolling mean is null.
    Daily resampling and rolling means are given as functions. */
module SmapIsmn {
  import opened Missing
  import opened Tables

  /** A calendar day, as a day number. */
  type Date = int

  /** One in-situ reading: its timestamp (the row's index label), its day,
      the soil moisture and the ISMN quality flag (`'G'` is good). */
  datatype Reading = Reading(time: int, date: Date, sm: Num, flag: string)

  /** One day of the SMAP extraction: soil moisture and retrieval-quality
      flag of the AM and of the PM pass (a flag may be NaN). */
  datatype SmapDay = SmapDay(amSm: Num, amFlag: Num, pmSm: Num, pmFlag: Num)

  /** One row of the synced table. */
  datatype SyncDay = SyncDay(smap: Num, ismn: Num)

  /** Distances at or beyond this many metres draw the "too far" warning. */
  const MaxDistance: int := 100

  /** Python's `int(x)`: truncation toward zero. */
  function Trunc(x: real): int {
    if x >= 0.0 then x.Floor else -((-x).Floor)
  }

  /** `int(dist) >= 100`. */
  predicate TooFar(dist: real) {
    Trunc(dist) >= MaxDistance
  }

  /** The warning is issued exactly for distances of 100 m or more: the
      truncation cannot move a distance across the whole number 100. */
  lemma TooFarIff(dist: real)
    ensures TooFar(dist) <==> dist >= 100.0
  {
    if dist < 0.0 {
      assert (-dist).Floor >= 0;
    }
  }

  /** `df[df['soil_moisture_flag'] != 'G'].index`: the timestamps of the
      readings not flagged good. */
  function BadTimes(readings: seq<Reading>): set<int> {
    set i | 0 <= i < |readings| && readings[i].flag != "G" :: readings[i].time
  }

  /** `df.drop(labels)`: a row stays unless its index label is listed. */
  function NotDropped(labels: set<int>): Reading -> bool {
    (r: Reading) => r.time !in labels
  }

  /** A SMAP retrieval is dropped when `flag != 0.0 & flag != 8.0`; a NaN
      flag is unequal to both. */
  predicate Recommended(flag: Num) {
    !(NotEqual(flag, Some(0.0)) && NotEqual(flag, Some(8.0)))
  }

  /** The ISMN readings left after dropping, by label, the ones not
      flagged good. */
  function IsmnQc(readings: seq<Reading>): seq<Reading> {
    Select(readings, NotDropped(BadTimes(readings)))
  }

  /** `df_ts_smap_am` after its bad rows are dropped. */
  function SmapAmQc(smap: map<Date, SmapDay>): map<Date, Num> {
    map d | d in smap && Recommended(smap[d].amFlag) :: smap[d].amSm
  }

  /** `df_ts_smap_pm` after its bad rows are dropped. */
  function SmapPmQc(smap: map<Date, SmapDay>): map<Date, Num> {
    map d | d in smap && Recommended(smap[d].pmFlag) :: smap[d].pmSm
  }

  /** `[[am, pm]].mean(axis=1, skipna=True)`. */
  function SkipNaMean(a: Num, b: Num): (r: Num) {
    match (a, b)
    case (Some(x), Some(y)) => Some((x + y) / 2.0)
    case (Some(x), None) => Some(x)
    case (None, Some(y)) => Some(y)
    case (None, None) => None
  }

  /** The skip-NaN mean is NaN only when both passes are, lies between the
      two passes when both are present, and is the present one otherwise. */
  lemma SkipNaMeanMeaning(a: Num, b: Num)
    ensures SkipNaMean(a, b).None? <==> a.None? && b.None?
    ensures a.Some? && b.Some? ==>
      && SkipNaMean(a, b).value * 2.0 == a.value + b.value
      && (a.value <= SkipNaMean(a, b).value <= b.value || b.value <= SkipNaMean(a, b).value <= a.value)
    ensures a.Some? && b.None? ==> SkipNaMean(a, b) == a
    ensures a.None? && b.Some? ==> SkipNaMean(a, b) == b
  {
  }

  /** The inner merge of the two passes on date, with their skip-NaN mean. */
  function MergeAmPm(am: map<Date, Num>, pm: map<Date, Num>): map<Date, Num> {
    map d | d in am && d in pm :: SkipNaMean(am[d], pm[d])
  }

  /** What `resample('D').mean()` does to a series that already has one
      value per day: it keeps every day and its value, and the days it adds
      (the gaps between the first and last day) are NaN. */
  predicate FillsGaps(m: map<Date, Num>, daily: map<Date, Num>) {
    && (forall d :: d in m ==> d in daily && daily[d] == m[d])
    && (forall d :: d in daily && d !in m ==> daily[d].None?)
  }

  /** The daily SMAP series, resampled by `resample`. */
  function SmapDaily(smap: map<Date, SmapDay>, resample: map<Date, Num> -> map<Date, Num>): map<Date, Num> {
    resample(MergeAmPm(SmapAmQc(smap), SmapPmQc(smap)))
  }

  /** The daily ISMN series: the good readings, averaged per day by
      `dailyMean`. */
  function IsmnDaily(readings: seq<Reading>, dailyMean: seq<Reading> -> map<Date, Num>): map<Date, Num> {
    dailyMean(IsmnQc(readings))
  }

  /** The inner merge of the daily SMAP and ISMN series on date. */
  function Join(smapDaily: map<Date, Num>, ismnDaily: map<Date, Num>): map<Date, SyncDay> {
    map d | d in smapDaily && d in ismnDaily :: SyncDay(smapDaily[d], ismnDaily[d])
  }

  function SmapColumn(sync: map<Date, SyncDay>): map<Date, Num> {
    map d | d in sync :: sync[d].smap
  }

  function IsmnColumn(sync: map<Date, SyncDay>): map<Date, Num> {
    map d | d in sync :: sync[d].ismn
  }

  /** `rolling.isnull()` on day `d`. */
  predicate NullOn(rolled: map<Date, Num>, d: Date) {
    d !in rolled || rolled[d].None?
  }

  /** Both columns set to NaN on the days either rolling mean is null. */
  function MaskGaps(sync: map<Date, SyncDay>, rollIsmn: map<Date, Num>, rollSmap: map<Date, Num>): map<Date, SyncDay> {
    map d | d in sync ::
      if NullOn(rollIsmn, d) || NullOn(rollSmap, d) then SyncDay(None, None) else sync[d]
  }

  /** The table `load_data` stores, from the readings of the chosen sensor. */
  function Synced(smap: map<Date, SmapDay>, readings: seq<Reading>,
                  resample: map<Date, Num> -> map<Date, Num>,
                  dailyMean: seq<Reading> -> map<Date, Num>,
                  rolling: map<Date, Num> -> map<Date, Num>): map<Date, SyncDay>
  {
    var sync := Join(SmapDaily(smap, resample), IsmnDaily(readings, dailyMean));
    MaskGaps(sync, rolling(IsmnColumn(sync)), rolling(SmapColumn(sync)))
  }

  /** An ISMN reading survives quality control iff every reading with its
      timestamp is flagged `'G'`: a good reading that shares its label with
      a bad one is dropped with it. Survivors are good and keep their order. */
  lemma IsmnQcKept(readings: seq<Reading>)
    ensures forall r :: r in IsmnQc(readings) <==>
      r in readings && forall q :: q in readings && q.time == r.time ==> q.flag == "G"
    ensures forall r :: r in IsmnQc(readings) ==> r.flag == "G"
    ensures forall j :: 0 <= j < |IsmnQc(readings)| ==>
      IsmnQc(readings)[j] == readings[KeptIndices(readings, NotDropped(BadTimes(readings)))[j]]
  {
    var bad := BadTimes(readings);
    SelectMembers(readings, NotDropped(bad));
    forall r | r in readings
      ensures r.time in bad <==> exists q :: q in readings && q.time == r.time && q.flag != "G"
    {
      if r.time in bad {
        var i :| 0 <= i < |readings| && readings[i].flag != "G" && readings[i].time == r.time;
        assert readings[i] in readings;
      }
    }
  }

  /** With distinct timestamps, as the sensor's series normally has, a
      reading survives quality control iff it is flagged `'G'`. */
  lemma IsmnQcDistinct(readings: seq<Reading>)
    requires forall i, j :: 0 <= i < j < |readings| ==> readings[i].time != readings[j].time
    ensures forall r :: r in IsmnQc(readings) <==> r in readings && r.flag == "G"
  {
    IsmnQcKept(readings);
    forall r | r in readings && r.flag == "G"
      ensures forall q :: q in readings && q.time == r.time ==> q.flag == "G"
    {
      forall q | q in readings && q.time == r.time
        ensures q.flag == "G"
      {
        var i :| 0 <= i < |readings| && readings[i] == q;
        var j :| 0 <= j < |readings| && readings[j] == r;
        assert i == j;
      }
    }
  }

  /** A SMAP pass survives quality control iff its own flag is 0 or 8, and
      keeps its soil moisture. */
  lemma SmapQcKept(smap: map<Date, SmapDay>)
    ensures forall d :: d in SmapAmQc(smap) <==>
      d in smap && (Eq(smap[d].amFlag, 0.0) || Eq(smap[d].amFlag, 8.0))
    ensures forall d :: d in SmapPmQc(smap) <==>
      d in smap && (Eq(smap[d].pmFlag, 0.0) || Eq(smap[d].pmFlag, 8.0))
    ensures forall d :: d in SmapAmQc(smap) ==> SmapAmQc(smap)[d] == smap[d].amSm
    ensures forall d :: d in SmapPmQc(smap) ==> SmapPmQc(smap)[d] == smap[d].pmSm
  {
  }

  /** A day of daily SMAP holds the skip-NaN mean of both passes when both
      passed quality control; every other day it holds is NaN. */
  lemma SmapDailyMeaning(smap: map<Date, SmapDay>, resample: map<Date, Num> -> map<Date, Num>)
    requires FillsGaps(MergeAmPm(SmapAmQc(smap), SmapPmQc(smap)),
                       resample(MergeAmPm(SmapAmQc(smap), SmapPmQc(smap))))
    ensures forall d :: d in SmapAmQc(smap) && d in SmapPmQc(smap) ==>
      && d in SmapDaily(smap, resample)
      && SmapDaily(smap, resample)[d] == SkipNaMean(smap[d].amSm, smap[d].pmSm)
    ensures forall d :: d in SmapDaily(smap, resample) && SmapDaily(smap, resample)[d].Some? ==>
      && d in smap && Recommended(smap[d].amFlag) && Recommended(smap[d].pmFlag)
      && SmapDaily(smap, resample)[d] == SkipNaMean(smap[d].amSm, smap[d].pmSm)
  {
  }

  /** The synced table's days are exactly the days of both daily series. */
  lemma JoinDates(smapDaily: map<Date, Num>, ismnDaily: map<Date, Num>)
    ensures Join(smapDaily, ismnDaily).Keys == smapDaily.Keys * ismnDaily.Keys
    ensures forall d :: d in Join(smapDaily, ismnDaily) ==>
      Join(smapDaily, ismnDaily)[d] == SyncDay(smapDaily[d], ismnDaily[d])
  {
  }

  /** Masking keeps the days; on every day where either rolling mean is
      null both series become NaN, and every other day is unchanged. */
  lemma MaskGapsMeaning(sync: map<Date, SyncDay>, rollIsmn: map<Date, Num>, rollSmap: map<Date, Num>)
    ensures MaskGaps(sync, rollIsmn, rollSmap).Keys == sync.Keys
    ensures forall d :: d in sync && (NullOn(rollIsmn, d) || NullOn(rollSmap, d)) ==>
      MaskGaps(sync, rollIsmn, rollSmap)[d].smap.None? && MaskGaps(sync, rollIsmn, rollSmap)[d].ismn.None?
    ensures forall d :: d in sync && !NullOn(rollIsmn, d) && !NullOn(rollSmap, d) ==>
      MaskGaps(sync, rollIsmn, rollSmap)[d] == sync[d]
  {
  }

  /** The stored table covers exactly the days present in both daily
      series; a value survives only where both rolling means exist, and a
      SMAP value that survives is the skip-NaN mean of two passes that both
      passed quality control. */
  lemma SyncedMeaning(smap: map<Date, SmapDay>, readings: seq<Reading>,
                      resample: map<Date, Num> -> map<Date, Num>,
                      dailyMean: seq<Reading> -> map<Date, Num>,
                      rolling: map<Date, Num> -> map<Date, Num>)
    requires FillsGaps(MergeAmPm(SmapAmQc(smap), SmapPmQc(smap)),
                       resample(MergeAmPm(SmapAmQc(smap), SmapPmQc(smap))))
    ensures Synced(smap, readings, resample, dailyMean, rolling).Keys
         == SmapDaily(smap, resample).Keys * IsmnDaily(readings, dailyMean).Keys
    ensures forall d :: d in Synced(smap, readings, resample, dailyMean, rolling) ==>
      var row := Synced(smap, readings, resample, dailyMean, rolling)[d];
      && (row.ismn.Some? ==> row.ismn == IsmnDaily(readings, dailyMean)[d])
      && (row.smap.Some? ==>
            && d in smap && Recommended(smap[d].amFlag) && Recommended(smap[d].pmFlag)
            && row.smap == SkipNaMean(smap[d].amSm, smap[d].pmSm))
  {
    var sync := Join(SmapDaily(smap, resample), IsmnDaily(readings, dailyMean));
    JoinDates(SmapDaily(smap, resample), IsmnDaily(readings, dailyMean));
    MaskGapsMeaning(sync, rolling(IsmnColumn(sync)), rolling(SmapColumn(sync)));
    SmapDailyMeaning(smap, resample);
  }

  /** The reader of one station's data. */
  class SmapIsmnPair {
    /** `self.sm_ts`: the synced table, once loaded. */
    var smTs: map<Date, SyncDay>
    /** Whether the "too far away" warning has been issued. */
    var tooFarWarned: bool

    constructor()
      ensures smTs == map[] && !tooFarWarned
    {
      smTs := map[];
      tooFarWarned := false;
    }

    /** `load_data`: `sensors` holds the readings of every sensor the
        station yields for soil moisture at 0-0.05 m, in iteration order.
        With none, the series is read before it is bound and the method
        stops with `UnboundSeries` after the distance check. */
    method LoadData(smap: map<Date, SmapDay>, distance: real, sensors: seq<seq<Reading>>,
                    resample: map<Date, Num> -> map<Date, Num>,
                    dailyMean: seq<Reading> -> map<Date, Num>,
                    rolling: map<Date, Num> -> map<Date, Num>)
      returns (failure: Option<Failure>)
      modifies this
      ensures tooFarWarned == (old(tooFarWarned) || TooFar(distance))
      ensures failure.Some? <==> |sensors| == 0
      ensures failure.Some? ==> failure.value == UnboundSeries && smTs == old(smTs)
      ensures failure.None? ==>
        smTs == Synced(smap, sensors[|sensors| - 1], resample, dailyMean, rolling)
    {
      if TooFar(distance) {
        tooFarWarned := true;
      }
      var found := false;
      var series: seq<Reading> := [];
      for i := 0 to |sensors|
        invariant found <==> i > 0
        invariant found ==> series == sensors[i - 1]
      {
        series := sensors[i];
        found := true;
      }
      if !found {
        return Some(UnboundSeries);
      }
      // quality control
      var bad := BadTimes(series);
      series := Select(series, NotDropped(bad));
      var ismnDaily := dailyMean(series);
      var am := SmapAmQc(smap);
      var pm := SmapPmQc(smap);
      // daily SMAP and the sync
      var smapDaily := resample(MergeAmPm(am, pm));
      var sync := Join(smapDaily, ismnDaily);
      // gap masking
      var rollIsmn := rolling(IsmnColumn(sync));
      var rollSmap := rolling(SmapColumn(sync));
      sync := MaskGaps(sync, rollIsmn, rollSmap);
      smTs := sync;
      return None;
    }
  }
}
