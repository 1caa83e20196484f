/** Two summaries of the poster script: the share of events with q > 1 in
    each (aridity bin, woody-cover bin) group, and the point where the R²
    trendline crosses the 1:1 line. */
module Summaries {
  import opened Missing
  import opened Tables

  /** Number of aridity-index bins (`0-0.5`, `0.5-1.0`, `1.0-1.5`, `1.5-`). */
  const AiBins: nat := 4

  /** Number of woody-cover bins (`0-20%` … `80-100%`). */
  const WoodBins: nat := 5

  /** One accepted event as the summary sees it: the bins `pd.cut` placed it
      in (absent when the value falls outside every bin) and its fitted q. */
  datatype BinnedEvent = BinnedEvent(aiBin: Option<nat>, woodBin: Option<nat>, q: Num)

  /** A group key: (aridity bin, woody-cover bin). */
  type Key = (nat, nat)

  /** One row of `percentage_df`. */
  datatype Share = Share(countGreater1: nat, totalCount: nat, pctGreater1: Num, pctAtMost1: Num)

  /** Every combination of the two categorical keys. */
  function AllKeys(): set<Key> {
    set a: nat, w: nat | a < AiBins && w < WoodBins :: (a, w)
  }

  predicate InGroup(e: BinnedEvent, k: Key) {
    e.aiBin == Some(k.0) && e.woodBin == Some(k.1)
  }

  /** How many events fall in group `k`. */
  function Count(events: seq<BinnedEvent>, k: Key): (r: nat)
    ensures r <= |events|
    ensures r == 0 <==> forall i :: 0 <= i < |events| ==> !InGroup(events[i], k)
    decreases |events|
  {
    if |events| == 0 then 0
    else
      var init := events[..|events| - 1];
      assert forall i :: 0 <= i < |init| ==> init[i] == events[i];
      Count(init, k) + (if InGroup(events[|events| - 1], k) then 1 else 0)
  }

  /** `groupby([ai, wood]).size()` on categorical keys: with `observed`
      false (pandas' default) every combination of categories is a group,
      empty ones included; with `observed` true only the non-empty ones. */
  function GroupSizes(events: seq<BinnedEvent>, observed: bool): (m: map<Key, nat>)
    ensures forall k :: k in m <==> k in AllKeys() && (observed ==> Count(events, k) > 0)
    ensures forall k :: k in m ==> m[k] == Count(events, k)
  {
    map k | k in AllKeys() && (observed ==> Count(events, k) > 0) :: Count(events, k)
  }

  /** `q_q > 1`. */
  function QAboveOne(): BinnedEvent -> bool {
    (e: BinnedEvent) => Gt(e.q, 1.0)
  }

  /** One merged row: `count / total * 100` and `100 - that`. */
  function ShareOf(count: nat, total: nat): Share {
    var pct := Mul(Div(Some(count as real), Some(total as real)), Some(100.0));
    Share(count, total, pct, Sub(Some(100.0), pct))
  }

  /** `percentage_df`: the inner merge of the q > 1 group sizes with the
      total group sizes, with the two percentage columns. */
  function QShareTable(events: seq<BinnedEvent>, observed: bool): map<Key, Share> {
    var greater := GroupSizes(Select(events, QAboveOne()), observed);
    var total := GroupSizes(events, observed);
    map k | k in greater && k in total :: ShareOf(greater[k], total[k])
  }

  /** The q > 1 events of a group are among the group's events. */
  lemma {:induction false} CountSelect(events: seq<BinnedEvent>, p: BinnedEvent -> bool, k: Key)
    ensures Count(Select(events, p), k) <= Count(events, k)
    decreases |events|
  {
    if |events| > 0 {
      var init, last := events[..|events| - 1], events[|events| - 1];
      CountSelect(init, p, k);
      var front := Select(init, p);
      if p(last) {
        assert Select(events, p) == front + [last];
        CountSnoc(front, last, k);
      }
    }
  }

  /** Appending an event adds one to its own group's count only. */
  lemma CountSnoc(events: seq<BinnedEvent>, e: BinnedEvent, k: Key)
    ensures Count(events + [e], k) == Count(events, k) + (if InGroup(e, k) then 1 else 0)
  {
    InitOfSnoc(events, e);
  }

  /** A group has a selected event iff one of its events passes the test. */
  lemma CountSelectPositive(events: seq<BinnedEvent>, p: BinnedEvent -> bool, k: Key)
    ensures Count(Select(events, p), k) > 0 <==>
      exists i :: 0 <= i < |events| && InGroup(events[i], k) && p(events[i])
  {
    var sel := Select(events, p);
    var inGroup := (e: BinnedEvent) => InGroup(e, k);
    assert Count(sel, k) > 0 <==> exists j :: 0 <= j < |sel| && inGroup(sel[j]);
    SelectExists(events, p, inGroup);
  }

  /** A share row is defined exactly when its group is non-empty; then the
      two percentages add up to 100, the first is `count / total` in
      percent, lies in [0, 100], and is positive iff some event has q > 1. */
  lemma ShareOfMeaning(count: nat, total: nat)
    requires count <= total
    ensures ShareOf(count, total).pctGreater1.Some? <==> total > 0
    ensures ShareOf(count, total).pctAtMost1.Some? <==> total > 0
    ensures total > 0 ==>
      var s := ShareOf(count, total);
      && s.pctGreater1.value + s.pctAtMost1.value == 100.0
      && s.pctGreater1.value * (total as real) == (count as real) * 100.0
      && 0.0 <= s.pctGreater1.value <= 100.0
      && (s.pctGreater1.value > 0.0 <==> count > 0)
  {
    if total > 0 {
      var f := Div(Some(count as real), Some(total as real)).value;
      assert f * (total as real) == count as real;
      Percent(f, count as real, total as real);
    }
  }

  lemma Percent(f: real, c: real, t: real)
    requires t > 0.0 && 0.0 <= c <= t && f * t == c
    ensures (f * 100.0) * t == c * 100.0
    ensures 0.0 <= f * 100.0 <= 100.0
    ensures f * 100.0 > 0.0 <==> c > 0.0
  {
  }

  /** Which groups `percentage_df` lists, and what each row holds: the
      q > 1 count never exceeds the group's total. */
  lemma QShareTableRows(events: seq<BinnedEvent>, observed: bool)
    ensures forall k :: k in QShareTable(events, observed) <==>
      k in AllKeys() && (observed ==> Count(Select(events, QAboveOne()), k) > 0)
    ensures forall k :: k in QShareTable(events, observed) ==>
      && QShareTable(events, observed)[k] ==
         ShareOf(Count(Select(events, QAboveOne()), k), Count(events, k))
      && Count(Select(events, QAboveOne()), k) <= Count(events, k)
  {
    forall k {
      CountSelect(events, QAboveOne(), k);
    }
  }

  /** With observed groups only, the inner merge keeps exactly the groups
      holding a q > 1 event, and every row's q > 1 share lies in (0, 100]
      and complements the q ≤ 1 share to 100. */
  lemma ObservedShares(events: seq<BinnedEvent>)
    ensures forall k :: k in QShareTable(events, true) <==>
      k in AllKeys() && exists i :: 0 <= i < |events| && InGroup(events[i], k) && Gt(events[i].q, 1.0)
    ensures forall k :: k in QShareTable(events, true) ==>
      var s := QShareTable(events, true)[k];
      && s.pctGreater1.Some? && s.pctAtMost1.Some?
      && 0.0 < s.pctGreater1.value <= 100.0
      && s.pctGreater1.value + s.pctAtMost1.value == 100.0
  {
    QShareTableRows(events, true);
    forall k | k in QShareTable(events, true)
      ensures var s := QShareTable(events, true)[k];
        && s.pctGreater1.Some? && s.pctAtMost1.Some?
        && 0.0 < s.pctGreater1.value <= 100.0
        && s.pctGreater1.value + s.pctAtMost1.value == 100.0
    {
      CountSelect(events, QAboveOne(), k);
      ShareOfMeaning(Count(Select(events, QAboveOne()), k), Count(events, k));
    }
    forall k ensures k in QShareTable(events, true) <==>
      k in AllKeys() && exists i :: 0 <= i < |events| && InGroup(events[i], k) && Gt(events[i].q, 1.0)
    {
      CountSelectPositive(events, QAboveOne(), k);
    }
  }

  /** With pandas' default on categorical keys every combination is listed;
      an empty group's percentages are NaN, and any other group's q > 1
      share lies in [0, 100] and complements the q ≤ 1 share to 100. */
  lemma AllShares(events: seq<BinnedEvent>)
    ensures forall k :: k in QShareTable(events, false) <==> k in AllKeys()
    ensures forall k :: k in QShareTable(events, false) ==>
      var s := QShareTable(events, false)[k];
      && (s.pctGreater1.Some? <==> Count(events, k) > 0)
      && (s.pctGreater1.Some? ==>
            && 0.0 <= s.pctGreater1.value <= 100.0
            && s.pctGreater1.value + s.pctAtMost1.value == 100.0)
  {
    QShareTableRows(events, false);
    forall k | k in QShareTable(events, false)
      ensures var s := QShareTable(events, false)[k];
        && (s.pctGreater1.Some? <==> Count(events, k) > 0)
        && (s.pctGreater1.Some? ==>
              && 0.0 <= s.pctGreater1.value <= 100.0
              && s.pctGreater1.value + s.pctAtMost1.value == 100.0)
    {
      CountSelect(events, QAboveOne(), k);
      ShareOfMeaning(Count(Select(events, QAboveOne()), k), Count(events, k));
    }
  }

  /** `coefficients[1] / (1 - coefficients[0])`: where the trendline
      `y = slope * x + intercept` meets `y = x`. Parallel lines (slope 1)
      divide by zero, which gives no finite point. */
  function TrendlineIntersection(slope: real, intercept: real): (r: Num)
    ensures r.Some? <==> slope != 1.0
    ensures r.Some? ==> slope * r.value + intercept == r.value
  {
    Div(Some(intercept), Some(1.0 - slope))
  }

  /** The crossing point is the only point of the trendline on the 1:1
      line. */
  lemma IntersectionUnique(slope: real, intercept: real, x: real)
    requires slope * x + intercept == x
    requires slope != 1.0
    ensures TrendlineIntersection(slope, intercept) == Some(x)
  {
    var r := TrendlineIntersection(slope, intercept).value;
    Cancel(r, x, 1.0 - slope);
  }
}
