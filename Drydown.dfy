/** The drydown series of the loss-versus-PET test script: the day-ahead
    soil-moisture loss, the drydown-day mask, and the (soil moisture, loss)
    pairs of one PET quantile with NaN pairs deleted. The synced daily table
    is a class whose columns the script adds and overwrites in place. */
module Drydown {
  import opened Missing
  import opened Tables

  /** `series.diff()`: the change from the previous day; NaN on the first. */
  function Diff(s: seq<Num>): (r: seq<Num>)
    ensures |r| == |s|
  {
    seq(|s|, t requires 0 <= t < |s| => if t == 0 then None else Sub(s[t], s[t - 1]))
  }

  /** `series > 0` (false for NaN). */
  function Positive(s: seq<Num>): (r: seq<bool>)
    ensures |r| == |s|
  {
    seq(|s|, t requires 0 <= t < |s| => Gt(s[t], 0.0))
  }

  /** `series[mask] = np.nan`. */
  function Blank(s: seq<Num>, mask: seq<bool>): (r: seq<Num>)
    requires |mask| == |s|
    ensures |r| == |s|
  {
    seq(|s|, t requires 0 <= t < |s| => if mask[t] then None else s[t])
  }

  /** `series.shift(periods=-1)`: tomorrow's value; NaN on the last day. */
  function ShiftUp(s: seq<Num>): (r: seq<Num>)
    ensures |r| == |s|
  {
    seq(|s|, t requires 0 <= t < |s| => if t + 1 < |s| then s[t + 1] else None)
  }

  /** `series.notna()`. */
  function NotNa(s: seq<Num>): (r: seq<bool>)
    ensures |r| == |s|
  {
    seq(|s|, t requires 0 <= t < |s| => s[t].Some?)
  }

  /** `mask.shift(periods=+1) | mask`. The shifted series holds NaN on the
      first day and is the left operand: pandas fills NaN with false only in
      the right operand, so `NaN | b` fails element-wise, gives NaN, and the
      result reads it as false whatever `b` is. The first day is never set. */
  function WithDayBefore(b: seq<bool>): (r: seq<bool>)
    ensures |r| == |b|
  {
    seq(|b|, t requires 0 <= t < |b| => t > 0 && (b[t - 1] || b[t]))
  }

  /** `(flag == True) | (flag.shift(periods=-1) == True)`: the shifted-in
      NaN of the last day is not equal to True. */
  function WithDayAfter(b: seq<bool>): (r: seq<bool>)
    ensures |r| == |b|
  {
    seq(|b|, t requires 0 <= t < |b| => b[t] || (t + 1 < |b| && b[t + 1]))
  }

  /** `mask == False`. */
  function Not(b: seq<bool>): (r: seq<bool>)
    ensures |r| == |b|
  {
    seq(|b|, t requires 0 <= t < |b| => !b[t])
  }

  /** The day-ahead loss, defined directly: on day t, the change to day t+1
      when soil moisture did not rise, and NaN when it rose, when either
      day is NaN, and on the last day. */
  function LossAhead(sm: seq<Num>): (r: seq<Num>)
    ensures |r| == |sm|
  {
    seq(|sm|, t requires 0 <= t < |sm| =>
      if t + 1 < |sm| && sm[t].Some? && sm[t + 1].Some? && sm[t + 1].value <= sm[t].value
      then Some(sm[t + 1].value - sm[t].value) else None)
  }

  /** The loss is never positive, and where defined it is the step from
      today's soil moisture to tomorrow's. */
  lemma LossAheadMeaning(sm: seq<Num>)
    ensures |sm| > 0 ==> LossAhead(sm)[|sm| - 1].None?
    ensures forall t :: 0 <= t < |sm| && LossAhead(sm)[t].Some? ==>
      && t + 1 < |sm| && sm[t].Some? && sm[t + 1].Some?
      && LossAhead(sm)[t].value <= 0.0
      && sm[t].value + LossAhead(sm)[t].value == sm[t + 1].value
  {
  }

  /** The script's three statements (difference, blank the rises, shift
      back one day) compute the day-ahead loss. */
  lemma LossAheadPipeline(sm: seq<Num>)
    ensures ShiftUp(Blank(Diff(sm), Positive(Diff(sm)))) == LossAhead(sm)
  {
    var d := Diff(sm);
    var m := Blank(d, Positive(d));
    var r := ShiftUp(m);
    forall t | 0 <= t < |sm|
      ensures r[t] == LossAhead(sm)[t]
    {
      if t + 1 < |sm| {
        assert r[t] == m[t + 1];
        assert d[t + 1] == Sub(sm[t + 1], sm[t]);
      }
    }
  }

  /** Day t belongs to a drydown when it is not the first day and the loss
      is defined on it or on the day before. */
  predicate InDrydown(loss: seq<Num>, t: int)
    requires 0 <= t < |loss|
  {
    t > 0 && (loss[t].Some? || loss[t - 1].Some?)
  }

  /** No rain today or tomorrow. */
  predicate NoPrecipBuffered(noprecip: seq<bool>, t: int)
    requires 0 <= t < |noprecip|
  {
    noprecip[t] || (t + 1 < |noprecip| && noprecip[t + 1])
  }

  /** `values_while_drydown`, defined directly: soil moisture on drydown
      days without rain today or tomorrow, NaN elsewhere. */
  function DrydownValues(sm: seq<Num>, loss: seq<Num>, noprecip: seq<bool>): (r: seq<Num>)
    requires |loss| == |sm| && |noprecip| == |sm|
    ensures |r| == |sm|
  {
    seq(|sm|, t requires 0 <= t < |sm| =>
      if InDrydown(loss, t) && NoPrecipBuffered(noprecip, t) then sm[t] else None)
  }

  /** The script's masking statements compute `DrydownValues`. */
  lemma DrydownPipeline(sm: seq<Num>, loss: seq<Num>, noprecip: seq<bool>)
    requires |loss| == |sm| && |noprecip| == |sm|
    ensures Blank(Blank(sm, Not(WithDayBefore(NotNa(loss)))), Not(WithDayAfter(noprecip)))
         == DrydownValues(sm, loss, noprecip)
  {
  }

  /** A value kept as a drydown value is the day's soil moisture, never on
      the first day, on a day without rain today or tomorrow, and soil
      moisture did not rise from that day to the next or from the day before
      to it. */
  lemma DrydownValueKept(sm: seq<Num>, noprecip: seq<bool>, t: int)
    requires |noprecip| == |sm| && 0 <= t < |sm|
    requires DrydownValues(sm, LossAhead(sm), noprecip)[t].Some?
    ensures t > 0
    ensures DrydownValues(sm, LossAhead(sm), noprecip)[t] == sm[t]
    ensures NoPrecipBuffered(noprecip, t)
    ensures || (t + 1 < |sm| && sm[t].Some? && sm[t + 1].Some? && sm[t + 1].value <= sm[t].value)
            || (t > 0 && sm[t - 1].Some? && sm[t].Some? && sm[t].value <= sm[t - 1].value)
  {
    var loss := LossAhead(sm);
    if loss[t].None? {
      assert loss[t - 1].Some?;
    }
  }

  /** `column[quantile == level].values`. */
  function Pick(col: seq<Num>, quantile: seq<Option<nat>>, level: nat): (r: seq<Num>)
    requires |quantile| == |col|
    ensures |r| == |KeptIndices(quantile, IsLevel(level))|
  {
    var ix := KeptIndices(quantile, IsLevel(level));
    seq(|ix|, j requires 0 <= j < |ix| => col[ix[j]])
  }

  function IsLevel(level: nat): Option<nat> -> bool {
    (q: Option<nat>) => q == Some(level)
  }

  function IsFalse(): bool -> bool {
    (b: bool) => !b
  }

  /** `array * -1`. */
  function Negated(s: seq<Num>): (r: seq<Num>)
    ensures |r| == |s|
  {
    seq(|s|, j requires 0 <= j < |s| => Neg(s[j]))
  }

  /** `np.isnan(x) | np.isnan(y)`. */
  function NanPair(x: seq<Num>, y: seq<Num>): (r: seq<bool>)
    requires |y| == |x|
    ensures |r| == |x|
  {
    seq(|x|, j requires 0 <= j < |x| => x[j].None? || y[j].None?)
  }

  /** `np.delete(array, mask)`: drops the entries where the mask is true. */
  function Delete(s: seq<Num>, mask: seq<bool>): (r: seq<Num>)
    requires |mask| == |s|
    ensures |r| == |KeptIndices(mask, IsFalse())|
  {
    var ix := KeptIndices(mask, IsFalse());
    seq(|ix|, j requires 0 <= j < |ix| => s[ix[j]])
  }

  /** The soil moisture and the loss of one PET quantile, NaN pairs deleted. */
  function CleanPairs(sm: seq<Num>, loss: seq<Num>, quantile: seq<Option<nat>>, level: nat): (seq<Num>, seq<Num>)
    requires |loss| == |sm| && |quantile| == |sm|
  {
    var x := Pick(sm, quantile, level);
    var y := Negated(Pick(loss, quantile, level));
    var nans := NanPair(x, y);
    (Delete(x, nans), Delete(y, nans))
  }

  /** Deleting NaN pairs leaves equally long NaN-free arrays that list, in
      their original order, exactly the pairs with both members present. */
  lemma DeleteNanPairs(x: seq<Num>, y: seq<Num>)
    requires |y| == |x|
    ensures var ix := KeptIndices(NanPair(x, y), IsFalse());
      && |Delete(x, NanPair(x, y))| == |Delete(y, NanPair(x, y))| == |ix|
      && (forall j :: 0 <= j < |ix| ==>
            && Delete(x, NanPair(x, y))[j] == x[ix[j]] && x[ix[j]].Some?
            && Delete(y, NanPair(x, y))[j] == y[ix[j]] && y[ix[j]].Some?)
      && (forall j, k :: 0 <= j < k < |ix| ==> ix[j] < ix[k])
      && (forall i :: 0 <= i < |x| ==> (i in ix <==> x[i].Some? && y[i].Some?))
  {
    var nans := NanPair(x, y);
    var ix := KeptIndices(nans, IsFalse());
    forall i | 0 <= i < |x| && i in ix
      ensures x[i].Some? && y[i].Some?
    {
      var j :| 0 <= j < |ix| && ix[j] == i;
      assert IsFalse()(nans[ix[j]]);
    }
  }

  /** Every retained loss value `-dSdt(t+1)` is non-negative. */
  lemma RetainedLossNonNegative(sm: seq<Num>, quantile: seq<Option<nat>>, level: nat)
    requires |quantile| == |sm|
    ensures forall j :: 0 <= j < |CleanPairs(sm, LossAhead(sm), quantile, level).1| ==>
      && CleanPairs(sm, LossAhead(sm), quantile, level).1[j].Some?
      && CleanPairs(sm, LossAhead(sm), quantile, level).1[j].value >= 0.0
  {
    var loss := LossAhead(sm);
    var x := Pick(sm, quantile, level);
    var picked := Pick(loss, quantile, level);
    var y := Negated(picked);
    DeleteNanPairs(x, y);
    LossAheadMeaning(sm);
    var ixq := KeptIndices(quantile, IsLevel(level));
    forall j | 0 <= j < |y| && y[j].Some?
      ensures y[j].value >= 0.0
    {
      assert picked[j] == loss[ixq[j]];
    }
  }

  /** The synced daily table of one station, as the script extends it. */
  class SyncedDays {
    var sm: seq<Num>
    var noprecip: seq<bool>
    var petQuantile: seq<Option<nat>>
    var dSdt: seq<Num>
    var dSdtNext: seq<Num>
    var valuesWhileDrydown: seq<Num>

    /** The table as read: soil moisture, the no-rain flag and the PET
        quantile level of each day (absent on rainy days). */
    constructor(sm0: seq<Num>, noprecip0: seq<bool>, quantile0: seq<Option<nat>>)
      requires |noprecip0| == |sm0| && |quantile0| == |sm0|
      ensures sm == sm0 && noprecip == noprecip0 && petQuantile == quantile0
      ensures dSdt == [] && dSdtNext == [] && valuesWhileDrydown == []
    {
      sm, noprecip, petQuantile := sm0, noprecip0, quantile0;
      dSdt, dSdtNext, valuesWhileDrydown := [], [], [];
    }

    /** `dSdt = diff()`, rises blanked in place, then `dSdt(t+1)` is
        `dSdt` shifted back a day: the day-ahead loss. */
    method AddLossRate()
      modifies this
      ensures dSdtNext == LossAhead(sm)
      ensures dSdt == Blank(Diff(sm), Positive(Diff(sm)))
      ensures sm == old(sm) && noprecip == old(noprecip) && petQuantile == old(petQuantile)
      ensures valuesWhileDrydown == old(valuesWhileDrydown)
    {
      dSdt := Diff(sm);
      dSdt := Blank(dSdt, Positive(dSdt));
      dSdtNext := ShiftUp(dSdt);
      LossAheadPipeline(sm);
    }

    /** `values_while_drydown` starts as a copy of soil moisture and is
        blanked off the drydown days, then off the days with rain today
        and tomorrow. */
    method MarkDrydown()
      requires |dSdtNext| == |sm| && |noprecip| == |sm|
      modifies this
      ensures sm == old(sm) && noprecip == old(noprecip) && petQuantile == old(petQuantile)
      ensures dSdt == old(dSdt) && dSdtNext == old(dSdtNext)
      ensures valuesWhileDrydown == DrydownValues(sm, dSdtNext, noprecip)
    {
      valuesWhileDrydown := sm;
      var drydownPeriod := NotNa(dSdtNext);
      drydownPeriod := WithDayBefore(drydownPeriod);
      valuesWhileDrydown := Blank(valuesWhileDrydown, Not(drydownPeriod));
      var noprecipWithBuffer := WithDayAfter(noprecip);
      valuesWhileDrydown := Blank(valuesWhileDrydown, Not(noprecipWithBuffer));
      DrydownPipeline(sm, dSdtNext, noprecip);
    }

    /** `x`, `y` of one PET quantile with NaN pairs deleted; after
        `AddLossRate` every `y` is a non-negative loss. */
    method PairsForQuantile(level: nat) returns (xs: seq<Num>, ys: seq<Num>)
      requires |dSdtNext| == |sm| && |petQuantile| == |sm|
      ensures (xs, ys) == CleanPairs(sm, dSdtNext, petQuantile, level)
      ensures |xs| == |ys|
      ensures forall j :: 0 <= j < |xs| ==> xs[j].Some? && ys[j].Some?
      ensures dSdtNext == LossAhead(sm) ==> forall j :: 0 <= j < |ys| ==> ys[j].value >= 0.0
    {
      var x := Pick(sm, petQuantile, level);
      var y := Negated(Pick(dSdtNext, petQuantile, level));
      var nans := NanPair(x, y);
      xs := Delete(x, nans);
      ys := Delete(y, nans);
      DeleteNanPairs(x, y);
      if dSdtNext == LossAhead(sm) {
        RetainedLossNonNegative(sm, petQuantile, level);
      }
    }
  }
}
