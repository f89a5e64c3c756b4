/** The input range fixed at the start of a training session
    (`mean_range`, training_panel.py): the smallest and the largest sensor
    distance over every example of the chosen dataset. */
module Normalisation {
  import opened Wrappers
  import opened Loading

  /** Python's `min` of a non-empty sequence. */
  function Min(s: seq<real>): (m: real)
    requires |s| > 0
    ensures m in s
    ensures forall j :: 0 <= j < |s| ==> m <= s[j]
  {
    if |s| == 1 then s[0]
    else
      var t := Min(s[1..]);
      assert forall j :: 1 <= j < |s| ==> s[j] == s[1..][j - 1];
      if s[0] <= t then s[0] else t
  }

  /** Python's `max` of a non-empty sequence. */
  function Max(s: seq<real>): (m: real)
    requires |s| > 0
    ensures m in s
    ensures forall j :: 0 <= j < |s| ==> s[j] <= m
  {
    if |s| == 1 then s[0]
    else
      var t := Max(s[1..]);
      assert forall j :: 1 <= j < |s| ==> s[j] == s[1..][j - 1];
      if s[0] >= t then s[0] else t
  }

  /** Some example has no inputs. */
  predicate HasEmptyInputs(ds: seq<TrainingData>) {
    exists n :: 0 <= n < |ds| && |ds[n].i| == 0
  }

  /** `min(min(d.i) for d in ds)` over a dataset where every `d.i` is
      non-empty. */
  function LowestInput(ds: seq<TrainingData>): (lo: real)
    requires |ds| > 0 && !HasEmptyInputs(ds)
    ensures forall n, j :: 0 <= n < |ds| && 0 <= j < |ds[n].i| ==> lo <= ds[n].i[j]
    ensures exists n :: 0 <= n < |ds| && lo in ds[n].i
  {
    if |ds| == 1 then Min(ds[0].i)
    else
      assert forall n :: 1 <= n < |ds| ==> ds[n] == ds[1..][n - 1];
      var t := LowestInput(ds[1..]);
      var h := Min(ds[0].i);
      if h <= t then h else t
  }

  /** `max(max(d.i) for d in ds)` over a dataset where every `d.i` is
      non-empty. */
  function HighestInput(ds: seq<TrainingData>): (hi: real)
    requires |ds| > 0 && !HasEmptyInputs(ds)
    ensures forall n, j :: 0 <= n < |ds| && 0 <= j < |ds[n].i| ==> ds[n].i[j] <= hi
    ensures exists n :: 0 <= n < |ds| && hi in ds[n].i
  {
    if |ds| == 1 then Max(ds[0].i)
    else
      assert forall n :: 1 <= n < |ds| ==> ds[n] == ds[1..][n - 1];
      var t := HighestInput(ds[1..]);
      var h := Max(ds[0].i);
      if h >= t then h else t
  }

  /** `mean_range`: `min`/`max` of an empty dataset or of an empty input
      vector raises ValueError. */
  function MeanRange(ds: seq<TrainingData>): (r: Result<(real, real)>)
    ensures r.Ok? <==> |ds| > 0 && !HasEmptyInputs(ds)
    ensures r.Fail? ==> r.raised == ValueError
    ensures r.Ok? ==> forall n, j :: 0 <= n < |ds| && 0 <= j < |ds[n].i| ==>
      r.value.0 <= ds[n].i[j] <= r.value.1
    ensures r.Ok? ==> exists n :: 0 <= n < |ds| && r.value.0 in ds[n].i
    ensures r.Ok? ==> exists n :: 0 <= n < |ds| && r.value.1 in ds[n].i
    ensures r.Ok? ==> r.value.0 <= r.value.1
  {
    if |ds| == 0 || HasEmptyInputs(ds) then Fail(ValueError)
    else
      assert ds[0].i[0] in ds[0].i;
      Ok((LowestInput(ds), HighestInput(ds)))
  }

  /** The range is the tightest interval holding every input: any interval
      holding every input contains it. */
  lemma MeanRangeTightest(ds: seq<TrainingData>, a: real, b: real)
    requires MeanRange(ds).Ok?
    requires forall n, j :: 0 <= n < |ds| && 0 <= j < |ds[n].i| ==> a <= ds[n].i[j] <= b
    ensures a <= MeanRange(ds).value.0 && MeanRange(ds).value.1 <= b
  {
  }
}
