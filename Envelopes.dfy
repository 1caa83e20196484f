/** `hl_envelopes_idx`: the positions of the local minima and maxima of a
    signal, found from the signs of its first differences, optionally kept
    only on their side of the signal's mean, and thinned to the lowest
    (highest) one of every chunk of `d` consecutive candidates. */
module Envelopes {
  import opened Missing
  import opened Tables

  /** `np.sign`. */
  function Sign(x: real): int {
    if x > 0.0 then 1 else if x < 0.0 then -1 else 0
  }

  /** `np.diff(np.sign(np.diff(s))) > 0` (rising) or `< 0`: one flag per
      interior position, none for a signal shorter than three. */
  function TurnFlags(s: seq<real>, rising: bool): (r: seq<bool>)
    ensures |r| == if |s| < 2 then 0 else |s| - 2
  {
    if |s| < 2 then []
    else
      seq(|s| - 2, i requires 0 <= i < |s| - 2 =>
        var turn := Sign(s[i + 2] - s[i + 1]) - Sign(s[i + 1] - s[i]);
        if rising then turn > 0 else turn < 0)
  }

  function IsTrue(): bool -> bool {
    (b: bool) => b
  }

  /** `flags.nonzero()[0] + 1`: the flagged interior positions. */
  function Turns(s: seq<real>, rising: bool): (r: seq<nat>)
    ensures |r| == |KeptIndices(TurnFlags(s, rising), IsTrue())|
  {
    var ix := KeptIndices(TurnFlags(s, rising), IsTrue());
    seq(|ix|, j requires 0 <= j < |ix| => ix[j] + 1)
  }

  /** An interior point no higher than either neighbour and lower than at
      least one. */
  predicate IsLocalMin(s: seq<real>, m: nat) {
    && 1 <= m < |s| - 1
    && s[m] <= s[m - 1] && s[m] <= s[m + 1]
    && (s[m] < s[m - 1] || s[m] < s[m + 1])
  }

  /** An interior point no lower than either neighbour and higher than at
      least one. */
  predicate IsLocalMax(s: seq<real>, m: nat) {
    && 1 <= m < |s| - 1
    && s[m] >= s[m - 1] && s[m] >= s[m + 1]
    && (s[m] > s[m - 1] || s[m] > s[m + 1])
  }

  predicate Ascending(xs: seq<nat>) {
    forall j, k :: 0 <= j < k < |xs| ==> xs[j] < xs[k]
  }

  /** The sign test finds exactly the local minima (rising) or maxima, in
      ascending order; no position is both. */
  lemma TurnsMeaning(s: seq<real>)
    ensures forall m: nat :: m in Turns(s, true) <==> IsLocalMin(s, m)
    ensures forall m: nat :: m in Turns(s, false) <==> IsLocalMax(s, m)
    ensures Ascending(Turns(s, true)) && Ascending(Turns(s, false))
    ensures forall m: nat :: !(m in Turns(s, true) && m in Turns(s, false))
  {
    TurnsAt(s, true);
    TurnsAt(s, false);
  }

  lemma TurnsAt(s: seq<real>, rising: bool)
    ensures forall m: nat :: m in Turns(s, rising) <==>
      if rising then IsLocalMin(s, m) else IsLocalMax(s, m)
    ensures Ascending(Turns(s, rising))
  {
    var flags := TurnFlags(s, rising);
    FlaggedPositions(flags, Turns(s, rising));
    forall m: nat | 1 <= m < |s| - 1
      ensures flags[m - 1] <==> if rising then IsLocalMin(s, m) else IsLocalMax(s, m)
    {
      TurnFlagAt(s, rising, m);
    }
  }

  lemma TurnFlagAt(s: seq<real>, rising: bool, m: nat)
    requires 1 <= m < |s| - 1
    ensures TurnFlags(s, rising)[m - 1] <==> if rising then IsLocalMin(s, m) else IsLocalMax(s, m)
  {
    var a, b, c := s[m - 1], s[m], s[m + 1];
    assert TurnFlags(s, rising)[m - 1] == if rising then Sign(c - b) - Sign(b - a) > 0 else Sign(c - b) - Sign(b - a) < 0;
    SignTurn(a, b, c);
  }

  /** A rise in the sign of the slope at `b` is a local minimum, a fall a
      local maximum. */
  lemma SignTurn(a: real, b: real, c: real)
    ensures Sign(c - b) - Sign(b - a) > 0 <==> b <= a && b <= c && (b < a || b < c)
    ensures Sign(c - b) - Sign(b - a) < 0 <==> b >= a && b >= c && (b > a || b > c)
  {
  }

  /** The positions listed by `nonzero()[0] + 1` are the flagged ones,
      shifted by one, in ascending order. */
  lemma FlaggedPositions(flags: seq<bool>, r: seq<nat>)
    requires |r| == |KeptIndices(flags, IsTrue())|
    requires forall j :: 0 <= j < |r| ==> r[j] == KeptIndices(flags, IsTrue())[j] + 1
    ensures forall m: nat :: m in r <==> 1 <= m <= |flags| && flags[m - 1]
    ensures Ascending(r)
  {
    FlaggedOnly(flags, r);
    FlaggedAll(flags, r);
  }

  lemma FlaggedOnly(flags: seq<bool>, r: seq<nat>)
    requires |r| == |KeptIndices(flags, IsTrue())|
    requires forall j :: 0 <= j < |r| ==> r[j] == KeptIndices(flags, IsTrue())[j] + 1
    ensures forall m: nat :: m in r ==> 1 <= m <= |flags| && flags[m - 1]
  {
    forall m: nat | m in r
      ensures 1 <= m <= |flags| && flags[m - 1]
    {
      var j :| 0 <= j < |r| && r[j] == m;
      FlaggedListed(flags, j);
    }
  }

  lemma FlaggedAll(flags: seq<bool>, r: seq<nat>)
    requires |r| == |KeptIndices(flags, IsTrue())|
    requires forall j :: 0 <= j < |r| ==> r[j] == KeptIndices(flags, IsTrue())[j] + 1
    ensures forall m: nat :: 1 <= m <= |flags| && flags[m - 1] ==> m in r
  {
    forall m: nat | 1 <= m <= |flags| && flags[m - 1]
      ensures m in r
    {
      var j := FlaggedFound(flags, m - 1);
      assert r[j] == m;
    }
  }

  lemma FlaggedListed(flags: seq<bool>, j: nat)
    requires j < |KeptIndices(flags, IsTrue())|
    ensures KeptIndices(flags, IsTrue())[j] < |flags| && flags[KeptIndices(flags, IsTrue())[j]]
  {
    assert IsTrue()(flags[KeptIndices(flags, IsTrue())[j]]);
  }

  lemma FlaggedFound(flags: seq<bool>, i: nat) returns (j: nat)
    requires i < |flags| && flags[i]
    ensures j < |KeptIndices(flags, IsTrue())| && KeptIndices(flags, IsTrue())[j] == i
  {
    var ix := KeptIndices(flags, IsTrue());
    assert IsTrue()(flags[i]);
    assert i in ix;
    j :| j < |ix| && ix[j] == i;
  }

  function Sum(s: seq<real>): real
    decreases |s|
  {
    if |s| == 0 then 0.0 else Sum(s[..|s| - 1]) + s[|s| - 1]
  }

  /** `np.mean(s)`: NaN for an empty signal. */
  function Mean(s: seq<real>): (r: Num)
    ensures r.Some? <==> |s| > 0
    ensures r.Some? ==> r.value * (|s| as real) == Sum(s)
  {
    if |s| == 0 then None else Some(Sum(s) / (|s| as real))
  }

  /** `s[lmin] < s_mid` (below) or `s[lmax] > s_mid`; any comparison with
      NaN is false. */
  function OnSide(s: seq<real>, mid: Num, below: bool): nat -> bool {
    (m: nat) => m < |s| && mid.Some? && (if below then s[m] < mid.value else s[m] > mid.value)
  }

  /** The candidates after the optional split along the mean. */
  function Candidates(s: seq<real>, split: bool, lowest: bool): seq<nat> {
    var turns := Turns(s, lowest);
    if split then Select(turns, OnSide(s, Mean(s), lowest)) else turns
  }

  /** With the split, the candidates are the local extrema strictly on
      their side of the mean; without it, all local extrema. Either way
      they stay in ascending order. */
  lemma CandidatesMeaning(s: seq<real>, split: bool, lowest: bool)
    ensures forall m: nat :: m in Candidates(s, split, lowest) <==>
      && (if lowest then IsLocalMin(s, m) else IsLocalMax(s, m))
      && (split ==> Mean(s).Some? && if lowest then s[m] < Mean(s).value else s[m] > Mean(s).value)
    ensures Ascending(Candidates(s, split, lowest))
    ensures forall j :: 0 <= j < |Candidates(s, split, lowest)| ==> Candidates(s, split, lowest)[j] < |s|
  {
    TurnsAt(s, lowest);
    var turns := Turns(s, lowest);
    TurnsBounded(s, lowest);
    if split {
      var p := OnSide(s, Mean(s), lowest);
      SelectMembers<nat>(turns, p);
      SelectKeepsAscending(turns, p);
      var r := Select<nat>(turns, p);
      forall j | 0 <= j < |r|
        ensures r[j] < |s|
      {
        SelectedAt<nat>(turns, p, j);
      }
    }
  }

  lemma TurnsBounded(s: seq<real>, rising: bool)
    ensures forall j :: 0 <= j < |Turns(s, rising)| ==> Turns(s, rising)[j] < |s|
  {
    TurnsAt(s, rising);
    var turns := Turns(s, rising);
    forall j | 0 <= j < |turns|
      ensures turns[j] < |s|
    {
      assert turns[j] in turns;
    }
  }

  /** A selection from an ascending list ascends. */
  lemma SelectKeepsAscending(xs: seq<nat>, p: nat -> bool)
    requires Ascending(xs)
    ensures Ascending(Select<nat>(xs, p))
  {
    var r, ix := Select<nat>(xs, p), KeptIndices<nat>(xs, p);
    forall j, k | 0 <= j < k < |r|
      ensures r[j] < r[k]
    {
      SelectedAt<nat>(xs, p, j);
      SelectedAt<nat>(xs, p, k);
    }
  }

  predicate Within(idx: seq<nat>, s: seq<real>) {
    forall k :: 0 <= k < |idx| ==> idx[k] < |s|
  }

  /** `a` is at least as good as `b`: lower for minima, higher for maxima. */
  predicate AtLeastAsGood(a: real, b: real, lowest: bool) {
    if lowest then a <= b else a >= b
  }

  /** `lo + np.argmin(s[idx[lo:hi]])` (or `argmax`): the first position of
      the chunk holding its best value. */
  function Best(s: seq<real>, idx: seq<nat>, lo: nat, hi: nat, lowest: bool): (r: nat)
    requires lo < hi <= |idx| && Within(idx, s)
    ensures lo <= r < hi
    ensures forall k :: lo <= k < hi ==> AtLeastAsGood(s[idx[r]], s[idx[k]], lowest)
    ensures forall k :: lo <= k < r ==> !AtLeastAsGood(s[idx[k]], s[idx[r]], lowest)
    decreases hi - lo
  {
    if hi - lo == 1 then lo
    else
      var b := Best(s, idx, lo, hi - 1, lowest);
      if !AtLeastAsGood(s[idx[b]], s[idx[hi - 1]], lowest) then hi - 1 else b
  }

  function Min(a: int, b: int): int {
    if a <= b then a else b
  }

  /** Later chunks start later, by at least one chunk. */
  lemma {:induction false} ChunkOrder(j: nat, k: nat, d: nat)
    requires j < k
    ensures j * d + d <= k * d
    decreases k
  {
    MulSucc(k - 1, d);
    if j < k - 1 {
      ChunkOrder(j, k - 1, d);
    }
  }

  lemma MulSucc(n: int, d: int)
    ensures (n + 1) * d == n * d + d
  {
  }

  /** `range(lo, hi, step)` for a positive step: `lo`, `lo + step`, … below
      `hi`; one more step would reach or pass `hi`. */
  function Range(lo: nat, hi: nat, step: nat): (r: seq<nat>)
    requires step > 0
    ensures forall j :: 0 <= j < |r| ==> r[j] == lo + j * step && r[j] < hi
    ensures lo < hi ==> hi <= lo + |r| * step < hi + step
    ensures lo >= hi ==> r == []
    decreases hi - lo
  {
    if lo >= hi then []
    else
      var rest := Range(lo + step, hi, step);
      RangeCons(lo, hi, step, rest);
      [lo] + rest
  }

  /** One more start in front of the starts from `lo + step`. */
  lemma RangeCons(lo: nat, hi: nat, step: nat, rest: seq<nat>)
    requires step > 0 && lo < hi
    requires forall j :: 0 <= j < |rest| ==> rest[j] == lo + step + j * step && rest[j] < hi
    requires lo + step < hi ==> hi <= lo + step + |rest| * step < hi + step
    requires lo + step >= hi ==> rest == []
    ensures forall j :: 0 <= j < |[lo] + rest| ==> ([lo] + rest)[j] == lo + j * step && ([lo] + rest)[j] < hi
    ensures hi <= lo + |[lo] + rest| * step < hi + step
  {
    forall j | 0 < j < |[lo] + rest|
      ensures ([lo] + rest)[j] == lo + j * step
    {
      MulSucc(j - 1, step);
    }
    MulSucc(|rest|, step);
  }

  /** `i + argmin(s[idx[i:i+d]])` (or `argmax`) for every chunk start `i`
      of `range(0, len(idx), d)`. */
  function ThinPositions(s: seq<real>, idx: seq<nat>, d: nat, lowest: bool): (r: seq<nat>)
    requires d > 0 && Within(idx, s)
    ensures |r| == |Range(0, |idx|, d)|
    ensures forall j :: 0 <= j < |r| ==> r[j] < |idx|
  {
    var starts := Range(0, |idx|, d);
    seq(|starts|, j requires 0 <= j < |starts| =>
      Best(s, idx, starts[j], Min(starts[j] + d, |idx|), lowest))
  }

  /** `idx[[...]]`: the candidates at the chosen positions. */
  function Thin(s: seq<real>, idx: seq<nat>, d: nat, lowest: bool): (r: seq<nat>)
    requires d > 0 && Within(idx, s)
    ensures |r| == |ThinPositions(s, idx, d, lowest)|
  {
    var p := ThinPositions(s, idx, d, lowest);
    seq(|p|, j requires 0 <= j < |p| => idx[p[j]])
  }

  /** Thinning keeps one candidate per chunk of `d`, so ⌈len/d⌉ of them:
      the fewest chunks of `d` that cover the list. */
  lemma ThinCount(s: seq<real>, idx: seq<nat>, d: nat, lowest: bool)
    requires d > 0 && Within(idx, s)
    ensures |idx| > 0 ==> |idx| <= |Thin(s, idx, d, lowest)| * d < |idx| + d
    ensures |idx| == 0 ==> Thin(s, idx, d, lowest) == []
  {
    var starts := Range(0, |idx|, d);
    assert |Thin(s, idx, d, lowest)| == |starts|;
  }

  /** The `j`-th kept candidate sits at the first best position of chunk
      `j`, which starts at `j*d`. */
  lemma ThinChunk(s: seq<real>, idx: seq<nat>, d: nat, lowest: bool, j: nat)
    requires d > 0 && Within(idx, s)
    requires j < |Thin(s, idx, d, lowest)|
    ensures j * d < |idx|
    ensures ThinPositions(s, idx, d, lowest)[j] == Best(s, idx, j * d, Min(j * d + d, |idx|), lowest)
    ensures Thin(s, idx, d, lowest)[j] == idx[ThinPositions(s, idx, d, lowest)[j]]
  {
    var starts := Range(0, |idx|, d);
    assert starts[j] == j * d;
  }

  /** The chosen positions ascend, so the kept candidates form a
      subsequence of the list. */
  lemma ThinAscending(s: seq<real>, idx: seq<nat>, d: nat, lowest: bool)
    requires d > 0 && Within(idx, s)
    ensures Ascending(ThinPositions(s, idx, d, lowest))
  {
    var p := ThinPositions(s, idx, d, lowest);
    forall j, k | 0 <= j < k < |p|
      ensures p[j] < p[k]
    {
      ThinChunk(s, idx, d, lowest, j);
      ThinChunk(s, idx, d, lowest, k);
      ChunkOrder(j, k, d);
    }
  }

  /** Chunks of one leave the list as it is. */
  lemma ThinUnit(s: seq<real>, idx: seq<nat>, lowest: bool)
    requires Within(idx, s)
    ensures Thin(s, idx, 1, lowest) == idx
  {
    var starts := Range(0, |idx|, 1);
  }

  /** One `lmin[[... for i in range(0, len(lmin), d)]]` step: a step of zero
      makes `range` raise, a negative step gives an empty range. */
  function ThinStep(s: seq<real>, idx: seq<nat>, d: int, lowest: bool): (r: Outcome<seq<nat>>)
    requires Within(idx, s)
    ensures r.Err? <==> d == 0
    ensures r.Err? ==> r.failure == ZeroStep
    ensures d < 0 ==> r == Ok([])
    ensures d > 0 ==> r == Ok(Thin(s, idx, d, lowest))
  {
    if d == 0 then Err(ZeroStep)
    else if d < 0 then Ok([])
    else Ok(Thin(s, idx, d, lowest))
  }

  /** `hl_envelopes_idx(s, dmin, dmax, split)`: `(lmin, lmax)`. */
  function HlEnvelopesIdx(s: seq<real>, dmin: int, dmax: int, split: bool): Outcome<(seq<nat>, seq<nat>)> {
    CandidatesMeaning(s, split, true);
    CandidatesMeaning(s, split, false);
    var lmin := Candidates(s, split, true);
    var lmax := Candidates(s, split, false);
    match ThinStep(s, lmin, dmin, true)
    case Err(e) => Err(e)
    case Ok(thinMin) =>
      match ThinStep(s, lmax, dmax, false)
      case Err(e) => Err(e)
      case Ok(thinMax) => Ok((thinMin, thinMax))
  }

  /** The envelope positions: an error iff a chunk size is zero; otherwise
      every position of `lmin` is a local minimum (below the mean when
      split) and every position of `lmax` a local maximum (above it), both
      lists ascending. */
  lemma HlEnvelopesMeaning(s: seq<real>, dmin: int, dmax: int, split: bool)
    ensures HlEnvelopesIdx(s, dmin, dmax, split).Err? <==> dmin == 0 || dmax == 0
    ensures HlEnvelopesIdx(s, dmin, dmax, split).Ok? ==>
      var (lmin, lmax) := HlEnvelopesIdx(s, dmin, dmax, split).value;
      && (forall m :: m in lmin ==> IsLocalMin(s, m))
      && (forall m :: m in lmax ==> IsLocalMax(s, m))
      && (split ==> forall m :: m in lmin ==> s[m] < Mean(s).value)
      && (split ==> forall m :: m in lmax ==> s[m] > Mean(s).value)
      && Ascending(lmin) && Ascending(lmax)
      && (dmin < 0 ==> lmin == []) && (dmax < 0 ==> lmax == [])
      && (dmin == 1 ==> lmin == Candidates(s, split, true))
      && (dmax == 1 ==> lmax == Candidates(s, split, false))
  {
    CandidatesMeaning(s, split, true);
    CandidatesMeaning(s, split, false);
    ThinKeeps(s, Candidates(s, split, true), dmin, true);
    ThinKeeps(s, Candidates(s, split, false), dmax, false);
  }

  /** A thinning step keeps only candidates, in ascending order. */
  lemma ThinKeeps(s: seq<real>, idx: seq<nat>, d: int, lowest: bool)
    requires Within(idx, s) && Ascending(idx)
    ensures ThinStep(s, idx, d, lowest).Ok? ==>
      && (forall m :: m in ThinStep(s, idx, d, lowest).value ==> m in idx)
      && Ascending(ThinStep(s, idx, d, lowest).value)
    ensures d == 1 ==> ThinStep(s, idx, d, lowest) == Ok(idx)
  {
    if d > 0 {
      var r := Thin(s, idx, d, lowest);
      var p := ThinPositions(s, idx, d, lowest);
      ThinAscending(s, idx, d, lowest);
      forall j, k | 0 <= j < k < |r|
        ensures r[j] < r[k]
      {
        assert p[j] < p[k];
      }
      if d == 1 {
        ThinUnit(s, idx, lowest);
      }
    }
  }
}
