/** Sums and counts over sequences of weights. */
module Sums {

  function Sum(ws: seq<int>): int {
    if ws == [] then 0 else Sum(ws[..|ws| - 1]) + ws[|ws| - 1]
  }

  /** How many weights are positive. */
  function Positive(ws: seq<int>): nat {
    if ws == [] then 0 else Positive(ws[..|ws| - 1]) + if ws[|ws| - 1] > 0 then 1 else 0
  }

  lemma SumSnoc(ws: seq<int>, w: int)
    ensures Sum(ws + [w]) == Sum(ws) + w
    ensures Positive(ws + [w]) == Positive(ws) + if w > 0 then 1 else 0
  {
    assert (ws + [w])[..|ws|] == ws;
  }

  lemma {:induction false} SumUpdate(ws: seq<int>, i: nat, w: int)
    requires i < |ws|
    ensures Sum(ws[i := w]) == Sum(ws) - ws[i] + w
    ensures Positive(ws[i := w]) == Positive(ws) - (if ws[i] > 0 then 1 else 0) + (if w > 0 then 1 else 0)
  {
    var n := |ws| - 1;
    if i < n {
      SumUpdate(ws[..n], i, w);
      assert ws[i := w][..n] == ws[..n][i := w];
    } else {
      assert ws[i := w][..n] == ws[..n];
    }
  }

  lemma {:induction false} SumZero(ws: seq<int>)
    requires forall i :: 0 <= i < |ws| ==> ws[i] == 0
    ensures Sum(ws) == 0 && Positive(ws) == 0
  {
    if ws != [] { SumZero(ws[..|ws| - 1]); }
  }

  /** Weights between 0 and k: the sum is at most k times the number of positive ones. */
  lemma {:induction false} SumBound(ws: seq<int>, k: nat)
    requires forall i :: 0 <= i < |ws| ==> 0 <= ws[i] <= k
    ensures 0 <= Sum(ws) <= Positive(ws) * k
  {
    if ws != [] {
      var n := |ws| - 1;
      SumBound(ws[..n], k);
      assert ws[n] > 0 ==> (Positive(ws[..n]) + 1) * k == Positive(ws[..n]) * k + k;
    }
  }

  lemma {:induction false} PositiveAtMost(ws: seq<int>)
    ensures Positive(ws) <= |ws|
  {
    if ws != [] { PositiveAtMost(ws[..|ws| - 1]); }
  }

  lemma Scale(a: nat, b: nat, k: nat)
    requires a <= b
    ensures a * k <= b * k
  {
  }

  lemma {:induction false} SumPlus(a: seq<int>, b: seq<int>, c: seq<int>)
    requires |a| == |b| == |c| && forall i :: 0 <= i < |c| ==> c[i] == a[i] + b[i]
    ensures Sum(c) == Sum(a) + Sum(b)
  {
    if c != [] {
      var n := |c| - 1;
      SumPlus(a[..n], b[..n], c[..n]);
    }
  }

  /** Larger weights, larger sum; strictly larger as soon as one weight is. */
  lemma {:induction false} SumMonotone(a: seq<int>, b: seq<int>)
    requires |a| == |b| && forall i :: 0 <= i < |a| ==> a[i] <= b[i]
    ensures Sum(a) <= Sum(b)
    ensures Sum(a) < Sum(b) <==> exists i :: 0 <= i < |a| && a[i] < b[i]
  {
    if a != [] {
      var n := |a| - 1;
      SumMonotone(a[..n], b[..n]);
      if Sum(a) < Sum(b) && a[n] >= b[n] {
        var i :| 0 <= i < n && a[..n][i] < b[..n][i];
        assert a[i] < b[i];
      }
      if i :| 0 <= i < |a| && a[i] < b[i] {
        assert i < n ==> a[..n][i] < b[..n][i];
      }
    }
  }
}
