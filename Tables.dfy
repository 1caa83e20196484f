/** Row selection as pandas and numpy do it: a boolean mask keeps the rows
    that satisfy it, in their original order, under their original index
    labels; `df.apply(f, axis=1)` maps a function over the rows and stops at
    the first row it raises on. */
module Tables {
  import opened Missing

  /** The positions (index labels) of the rows that satisfy `p`, ascending. */
  function KeptIndices<T>(s: seq<T>, p: T -> bool): (r: seq<nat>)
    ensures forall j :: 0 <= j < |r| ==> r[j] < |s| && p(s[r[j]])
    ensures forall j, k :: 0 <= j < k < |r| ==> r[j] < r[k]
    ensures forall i :: 0 <= i < |s| && p(s[i]) ==> i in r
    decreases |s|
  {
    if |s| == 0 then []
    else
      var front := KeptIndices(s[..|s| - 1], p);
      assert forall i :: 0 <= i < |s| - 1 ==> s[..|s| - 1][i] == s[i];
      if p(s[|s| - 1]) then front + [|s| - 1] else front
  }

  /** `df[mask]`: the rows at the kept positions, in order. */
  function Select<T>(s: seq<T>, p: T -> bool): (r: seq<T>)
    ensures |r| == |KeptIndices(s, p)|
    ensures forall j :: 0 <= j < |r| ==> r[j] == s[KeptIndices(s, p)[j]]
    decreases |s|
  {
    if |s| == 0 then []
    else
      var front := Select(s[..|s| - 1], p);
      if p(s[|s| - 1]) then front + [s[|s| - 1]] else front
  }

  /** Some selected row satisfies `q` iff some row satisfies both `q` and
      the selection's test. */
  lemma SelectExists<T>(s: seq<T>, p: T -> bool, q: T -> bool)
    ensures (exists j :: 0 <= j < |Select(s, p)| && q(Select(s, p)[j])) <==>
            (exists i :: 0 <= i < |s| && q(s[i]) && p(s[i]))
  {
    var sel, ix := Select(s, p), KeptIndices(s, p);
    if exists j :: 0 <= j < |sel| && q(sel[j]) {
      var j :| 0 <= j < |sel| && q(sel[j]);
      SelectedAt(s, p, j);
    }
    if exists i :: 0 <= i < |s| && q(s[i]) && p(s[i]) {
      var i :| 0 <= i < |s| && q(s[i]) && p(s[i]);
      var j := SelectedFrom(s, p, i);
    }
  }

  /** The `j`-th selected row is a row that passes the test. */
  lemma SelectedAt<T>(s: seq<T>, p: T -> bool, j: nat)
    requires j < |Select(s, p)|
    ensures KeptIndices(s, p)[j] < |s|
    ensures Select(s, p)[j] == s[KeptIndices(s, p)[j]] && p(s[KeptIndices(s, p)[j]])
  {
  }

  /** A row that passes the test is selected, at some position `j`. */
  lemma SelectedFrom<T>(s: seq<T>, p: T -> bool, i: nat) returns (j: nat)
    requires i < |s| && p(s[i])
    ensures j < |Select(s, p)| && Select(s, p)[j] == s[i]
  {
    var ix := KeptIndices(s, p);
    assert i in ix;
    j :| j < |ix| && ix[j] == i;
  }

  /** The front of a table with one row appended is the table. */
  lemma InitOfSnoc<T>(a: seq<T>, x: T)
    ensures (a + [x])[..|a|] == a
  {
  }

  /** The set of kept index labels. */
  function Kept<T>(s: seq<T>, p: T -> bool): set<nat> {
    set i: nat | i < |s| && p(s[i])
  }

  /** A row is selected iff it is a row of the table that satisfies `p`. */
  lemma SelectMembers<T>(s: seq<T>, p: T -> bool)
    ensures forall x :: x in Select(s, p) <==> x in s && p(x)
  {
    var r, ix := Select(s, p), KeptIndices(s, p);
    forall x | x in s && p(x)
      ensures x in r
    {
      var i :| 0 <= i < |s| && s[i] == x;
      var j :| 0 <= j < |ix| && ix[j] == i;
      assert r[j] == x;
    }
  }

  /** The kept labels are exactly the positions listed by `KeptIndices`. */
  lemma KeptListed<T>(s: seq<T>, p: T -> bool)
    ensures forall i :: i in Kept(s, p) <==> i in KeptIndices(s, p)
  {
  }

  /** Filtering by `p` and then by `q` selects the rows one filter by the
      conjunction selects. */
  lemma {:induction false} SelectThen<T>(s: seq<T>, p: T -> bool, q: T -> bool, both: T -> bool)
    requires forall x :: both(x) == (p(x) && q(x))
    ensures Select(Select(s, p), q) == Select(s, both)
    decreases |s|
  {
    if |s| > 0 {
      var init, last := s[..|s| - 1], s[|s| - 1];
      SelectThen(init, p, q, both);
      if p(last) {
        var front := Select(init, p);
        assert Select(s, p) == front + [last];
        assert (front + [last])[..|front|] == front;
      }
    }
  }

  /** A narrower filter selects a sub-table: filtering by `q` first changes
      nothing when `p` implies `q`. */
  lemma SelectNarrow<T>(s: seq<T>, p: T -> bool, q: T -> bool)
    requires forall x :: p(x) ==> q(x)
    ensures Select(Select(s, q), p) == Select(s, p)
    ensures Kept(s, p) <= Kept(s, q)
  {
    SelectThen(s, q, p, p);
  }

  /** `df.apply(f, axis=1)`: one result per row, or the failure of the first
      row `f` raises on. */
  function ApplyRows<T, U>(s: seq<T>, f: T -> Outcome<U>): (r: Outcome<seq<U>>)
    ensures r.Ok? <==> forall i :: 0 <= i < |s| ==> f(s[i]).Ok?
    ensures r.Ok? ==> |r.value| == |s| && forall i :: 0 <= i < |s| ==> r.value[i] == f(s[i]).value
    ensures r.Err? ==> exists i :: (0 <= i < |s| && f(s[i]) == Err(r.failure)
      && forall j :: 0 <= j < i ==> f(s[j]).Ok?)
    decreases |s|
  {
    if |s| == 0 then Ok([])
    else
      match f(s[0])
      case Err(e) => Err(e)
      case Ok(v) =>
        assert forall i :: 1 <= i < |s| ==> s[1..][i - 1] == s[i];
        match ApplyRows(s[1..], f)
        case Err(e) => Err(e)
        case Ok(vs) => Ok([v] + vs)
  }
}
