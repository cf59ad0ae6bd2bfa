/** The two randomised helpers of data.js: the cumulative-weight draw
    `weightedSample` and the Fisher–Yates `shuffle`. Each draw of
    Math.random is a caller-supplied real in [0, 1). */
module Sampling {
  import opened Util

  /** `weights.reduce((a, b) => a + b, 0)`, folded from the left. */
  function Sum(ws: seq<real>): real
  {
    if ws == [] then 0.0 else Sum(ws[..|ws| - 1]) + ws[|ws| - 1]
  }

  lemma SumStep(ws: seq<real>, k: nat)
    requires k < |ws|
    ensures Sum(ws[..k + 1]) == Sum(ws[..k]) + ws[k]
  {
    assert ws[..k + 1][..k] == ws[..k];
  }

  /** The walk of the draw loop from position i with remainder r: the first
      position at which subtracting its weight brings r to zero or below,
      or the last position when none does. */
  function Covering(ws: seq<real>, r: real, i: nat): (k: nat)
    requires |ws| > 0
    ensures k < |ws|
    decreases |ws| - i
  {
    if i >= |ws| then |ws| - 1
    else if r - ws[i] <= 0.0 then i
    else Covering(ws, r - ws[i], i + 1)
  }

  /** `Math.random() * x` for the draw u. */
  function Scale(u: real, x: real): real
  {
    u * x
  }

  lemma ScaleBelow(u: real, x: real)
    requires 0.0 <= u < 1.0 && x > 0.0
    ensures 0.0 <= Scale(u, x) < x
  {
    LessThanOneScales(u, x);
  }

  /** The position weightedSample returns for the draw u: a cumulative-weight
      draw of r = u * sum when the weights sum to a positive value, a uniform
      position otherwise. */
  function WeightedPick(ws: seq<real>, u: real): (k: nat)
    requires |ws| > 0 && 0.0 <= u < 1.0
    ensures k < |ws|
  {
    var sum := Sum(ws);
    if sum <= 0.0 then UniformIndex(u, |ws|) else Covering(ws, Scale(u, sum), 0)
  }

  /** weightedSample: subtracts the weights from r in turn and returns the
      element at which r first drops to zero or below. */
  method WeightedSample<T>(pool: seq<T>, weights: seq<real>, u: real) returns (pick: T)
    requires |pool| == |weights| > 0 && 0.0 <= u < 1.0
    ensures pick == pool[WeightedPick(weights, u)]
  {
    var sum := Sum(weights);
    if sum <= 0.0 {
      return pool[UniformIndex(u, |pool|)];
    }
    var r := Scale(u, sum);
    var i := 0;
    while i < |pool|
      invariant 0 <= i <= |pool|
      invariant Covering(weights, r, i) == Covering(weights, Scale(u, sum), 0)
    {
      r := r - weights[i];
      if r <= 0.0 {
        return pool[i];
      }
      i := i + 1;
    }
    return pool[|pool| - 1];
  }

  /** The running total of the weights up to and including position j. */
  function Through(ws: seq<real>, j: nat): real
    requires j < |ws|
  {
    Sum(ws[..j + 1])
  }

  lemma ThroughStep(ws: seq<real>, j: nat)
    requires 0 < j < |ws|
    ensures Through(ws, j) == Through(ws, j - 1) + ws[j]
  {
    SumStep(ws, j);
  }

  lemma {:induction false} CoveringIsFirstCrossing(ws: seq<real>, r0: real, i: nat)
    requires 0 < |ws| && i < |ws|
    requires r0 - Sum(ws) <= 0.0
    requires forall j :: 0 <= j < i ==> r0 - Through(ws, j) > 0.0
    ensures var k := Covering(ws, r0 - Sum(ws[..i]), i);
      && i <= k
      && r0 - Through(ws, k) <= 0.0
      && forall j :: 0 <= j < k ==> r0 - Through(ws, j) > 0.0
    decreases |ws| - i
  {
    SumStep(ws, i);
    if r0 - Through(ws, i) > 0.0 {
      if i + 1 == |ws| {
        assert false;
      }
      CoveringIsFirstCrossing(ws, r0, i + 1);
    }
  }

  /** With a positive total, the draw returns the first position whose
      running total reaches r = u * sum; it never needs the fallback to the
      last position. */
  lemma WeightedPickIsFirstCrossing(ws: seq<real>, u: real)
    requires |ws| > 0 && 0.0 <= u < 1.0 && Sum(ws) > 0.0
    ensures var k := WeightedPick(ws, u);
      && Scale(u, Sum(ws)) - Through(ws, k) <= 0.0
      && forall j :: 0 <= j < k ==> Scale(u, Sum(ws)) - Through(ws, j) > 0.0
  {
    assert ws[..0] == [];
    ScaleBelow(u, Sum(ws));
    CoveringIsFirstCrossing(ws, Scale(u, Sum(ws)), 0);
  }

  predicate AllPositive(ws: seq<real>)
  {
    forall i :: 0 <= i < |ws| ==> ws[i] > 0.0
  }

  lemma {:induction false} RunningTotalsGrow(ws: seq<real>, a: nat, b: nat)
    requires AllPositive(ws) && a < b < |ws|
    ensures Through(ws, a) < Through(ws, b)
    decreases b - a
  {
    ThroughStep(ws, b);
    if a < b - 1 {
      RunningTotalsGrow(ws, a, b - 1);
    }
  }

  lemma PositiveSum(ws: seq<real>)
    requires AllPositive(ws) && |ws| > 0
    ensures Sum(ws) > 0.0
  {
    assert ws[..0] == [] && ws[..|ws|] == ws;
    SumStep(ws, 0);
    if |ws| > 1 {
      RunningTotalsGrow(ws, 0, |ws| - 1);
    }
  }

  /** With positive weights the draw lands on position k exactly when
      r = u * sum lies in k's slice of the running total, an interval as long
      as k's weight: selection is proportional to weight. */
  lemma WeightedPickInterval(ws: seq<real>, u: real, k: nat)
    requires |ws| > 0 && 0.0 <= u < 1.0 && AllPositive(ws) && k < |ws|
    ensures var r := Scale(u, Sum(ws));
      WeightedPick(ws, u) == k <==> (k == 0 || Through(ws, k - 1) < r) && r <= Through(ws, k)
  {
    PositiveSum(ws);
    var r := Scale(u, Sum(ws));
    var p := WeightedPick(ws, u);
    WeightedPickIsFirstCrossing(ws, u);
    if p != k && (k == 0 || Through(ws, k - 1) < r) && r <= Through(ws, k) {
      if p < k {
        if p < k - 1 {
          RunningTotalsGrow(ws, p, k - 1);
        }
        assert false;
      } else {
        assert false;
      }
    }
  }

  /** The sequence with positions i and j exchanged. */
  function SwapAt<T>(s: seq<T>, i: nat, j: nat): (t: seq<T>)
    requires i < |s| && j < |s|
    ensures |t| == |s| && multiset(t) == multiset(s)
  {
    s[i := s[j]][j := s[i]]
  }

  /** The Fisher–Yates passes from position i down to 1: pass i swaps
      position i with the uniform position below or at i given by draw
      number |s| - 1 - i. The passes only ever exchange elements. */
  function FisherYatesFrom<T>(s: seq<T>, i: int, us: seq<real>): (r: seq<T>)
    requires -1 <= i < |s| && UnitDraws(us, |s|)
    ensures |r| == |s| && multiset(r) == multiset(s)
    decreases i
  {
    if i <= 0 then s
    else FisherYatesFrom(SwapAt(s, i, UniformIndex(us[|s| - 1 - i], i + 1)), i - 1, us)
  }

  /** The result of `shuffle(arr)` for the draws `us`: a permutation of its
      argument. */
  function FisherYates<T>(s: seq<T>, us: seq<real>): (r: seq<T>)
    requires UnitDraws(us, |s|)
    ensures |r| == |s| && multiset(r) == multiset(s)
  {
    FisherYatesFrom(s, |s| - 1, us)
  }

  /** shuffle: copies its argument into a fresh array and runs the
      Fisher–Yates passes on the copy, so the argument is left as it was. */
  method Shuffle<T>(arr: seq<T>, us: seq<real>) returns (r: seq<T>)
    requires UnitDraws(us, |arr|)
    ensures r == FisherYates(arr, us)
    ensures multiset(r) == multiset(arr)
  {
    var a := new T[|arr|](k requires 0 <= k < |arr| => arr[k]);
    assert a[..] == arr;
    var i := a.Length - 1;
    while i > 0
      invariant -1 <= i < a.Length
      invariant FisherYatesFrom(a[..], i, us) == FisherYates(arr, us)
    {
      var j := UniformIndex(us[a.Length - 1 - i], i + 1);
      ghost var before := a[..];
      var t := a[i];
      a[i] := a[j];
      a[j] := t;
      assert a[..] == SwapAt(before, i, j);
      i := i - 1;
    }
    r := a[..];
  }
}
