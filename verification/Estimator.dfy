/**
 The estimates of section length that the schedulers post: the running mean of 10.2 and the moving
 average of 10.04, both in integer arithmetic.
 */
module Estimator {
  import opened Replay
  import opened Words

  // ---------- running mean (10.2) ----------

  // avg_cycles after a sample, when the thread has committed k sections before.
  function NextMean(avg: nat, k: nat, time: nat): nat {
    (avg * k + time) / (k + 1)
  }

  // A section as thread 0 runs it: its access mode and its type.
  datatype Call = Call(ro: bool, kind: nat)

  // read_commits and write_commits.
  function Commits(calls: seq<Call>, ro: bool): nat {
    if calls == [] then 0 else Commits(Front(calls), ro) + if Last(calls).ro == ro then 1 else 0
  }

  // The average of one section type after the given sections.  The weight of a sample is the number
  // of earlier commits of its mode, of all types.
  function Mean(calls: seq<Call>, times: seq<nat>, kind: nat): nat
    requires |calls| == |times|
  {
    if calls == [] then 0
    else
      var avg, call := Mean(Front(calls), Front(times), kind), Last(calls);
      if call.kind == kind then NextMean(avg, Commits(Front(calls), call.ro), Last(times)) else avg
  }

  function Count(calls: seq<Call>, kind: nat): nat {
    if calls == [] then 0 else Count(Front(calls), kind) + if Last(calls).kind == kind then 1 else 0
  }

  function TotalTime(calls: seq<Call>, times: seq<nat>, kind: nat): nat
    requires |calls| == |times|
  {
    if calls == [] then 0
    else TotalTime(Front(calls), Front(times), kind) + if Last(calls).kind == kind then Last(times) else 0
  }

  // A mean of k samples that stands for the given total: it never exceeds the true mean and undershoots
  // it by at most (k - 1) / 2.  Multiplied out by 2 k, these are bounds between whole numbers.
  predicate Near(mean: nat, k: nat, total: nat) {
    2 * total - k * (k - 1) <= 2 * (mean * k) <= 2 * total
  }

  predicate Accurate(calls: seq<Call>, times: seq<nat>, kind: nat)
    requires |calls| == |times|
  {
    Near(Mean(calls, times, kind), Count(calls, kind), TotalTime(calls, times, kind))
  }

  // The section at j is weighed by the number of earlier samples of its type.
  predicate WeighedRight(calls: seq<Call>, j: nat)
    requires j < |calls|
  {
    Commits(calls[..j], calls[j].ro) == Count(calls[..j], calls[j].kind)
  }

  // Every section of the type is.
  predicate Balanced(calls: seq<Call>, kind: nat) {
    forall j :: 0 <= j < |calls| && calls[j].kind == kind ==> WeighedRight(calls, j)
  }

  // All sections of the type run in one mode.
  predicate OneMode(calls: seq<Call>, kind: nat, ro: bool) {
    forall i :: 0 <= i < |calls| && calls[i].kind == kind ==> calls[i].ro == ro
  }

  // No section of the same mode and another type comes before one of this type.
  predicate Unmixed(calls: seq<Call>, kind: nat) {
    forall i, j :: 0 <= i < j < |calls| && calls[j].kind == kind && calls[i].ro == calls[j].ro ==>
      calls[i].kind == kind
  }

  lemma {:induction false} MeanStep(avg: nat, k: nat, time: nat)
    ensures avg * k + time - k <= NextMean(avg, k, time) * (k + 1) <= avg * k + time
  {
    Remainder(avg * k + time, k + 1);
  }

  lemma {:induction false} Remainder(x: nat, d: nat)
    requires d > 0
    ensures x - (d - 1) <= x / d * d <= x
  {
    assert x == x / d * d + x % d;
  }

  lemma {:induction false} Triangle(k: nat)
    ensures (k + 1) * k == k * (k - 1) + 2 * k
  {
  }

  // One more sample with the right weight keeps the bounds.
  lemma {:induction false} MeanKeeps(avg: nat, k: nat, time: nat, total: nat)
    requires Near(avg, k, total)
    ensures Near(NextMean(avg, k, time), k + 1, total + time)
  {
    MeanStep(avg, k, time);
    Triangle(k);
  }

  lemma {:induction false} WeighedFront(calls: seq<Call>, j: nat)
    requires j < |calls| - 1
    ensures WeighedRight(Front(calls), j) == WeighedRight(calls, j)
  {
    assert Front(calls)[..j] == calls[..j];
  }

  lemma {:induction false} BalancedFront(calls: seq<Call>, kind: nat)
    requires calls != [] && Balanced(calls, kind)
    ensures Balanced(Front(calls), kind)
    ensures Last(calls).kind == kind ==> Commits(Front(calls), Last(calls).ro) == Count(Front(calls), kind)
  {
    forall j | 0 <= j < |Front(calls)| && Front(calls)[j].kind == kind
      ensures WeighedRight(Front(calls), j)
    {
      WeighedFront(calls, j);
    }
    assert Last(calls).kind == kind ==> WeighedRight(calls, |calls| - 1);
  }

  // With the right weights the average is accurate.
  lemma {:induction false} MeanBounds(calls: seq<Call>, times: seq<nat>, kind: nat)
    requires |calls| == |times| && Balanced(calls, kind)
    ensures Accurate(calls, times, kind)
  {
    if calls != [] {
      BalancedFront(calls, kind);
      MeanBounds(Front(calls), Front(times), kind);
      if Last(calls).kind == kind {
        var k := Count(Front(calls), kind);
        MeanKeeps(Mean(Front(calls), Front(times), kind), k, Last(times), TotalTime(Front(calls), Front(times), kind));
      }
    }
  }

  // All the time is taken by the section at index l.
  function Spike(n: nat, l: nat, time: nat): seq<nat> {
    seq(n, i => if i == l then time else 0)
  }

  lemma {:induction false} NoTime(calls: seq<Call>, l: nat, time: nat, kind: nat)
    requires |calls| <= l
    ensures Mean(calls, Spike(|calls|, l, time), kind) == 0 && TotalTime(calls, Spike(|calls|, l, time), kind) == 0
  {
    if calls != [] {
      NoTime(Front(calls), l, time, kind);
      assert Front(Spike(|calls|, l, time)) == Spike(|calls| - 1, l, time);
    }
  }

  // One section takes a * (w + 1), where w is its weight, and all later ones of the type have the
  // right weights.  The average then stands for a times the samples up to that section, as if the
  // total were share.
  lemma {:induction false} SpikeMean(calls: seq<Call>, l: nat, a: nat, kind: nat, time: nat, share: nat)
    requires l < |calls| && calls[l].kind == kind
    requires forall j :: l < j < |calls| && calls[j].kind == kind ==> WeighedRight(calls, j)
    requires time == a * (Commits(calls[..l], calls[l].ro) + 1) && share == a * (Count(calls[..l], kind) + 1)
    ensures var times := Spike(|calls|, l, time);
      TotalTime(calls, times, kind) == time && Near(Mean(calls, times, kind), Count(calls, kind), share)
  {
    hide NextMean, Near;
    assert Front(Spike(|calls|, l, time)) == Spike(|calls| - 1, l, time);
    assert Front(calls)[..l] == calls[..l];
    var k := Count(Front(calls), kind);
    if l == |calls| - 1 {
      assert Front(calls) == calls[..l];
      NoTime(Front(calls), l, time, kind);
      Exactly(a, Commits(Front(calls), calls[l].ro) + 1);
      StartsNear(a, k + 1);
    } else {
      forall j | l < j < |Front(calls)| && Front(calls)[j].kind == kind
        ensures WeighedRight(Front(calls), j)
      {
        WeighedFront(calls, j);
      }
      SpikeMean(Front(calls), l, a, kind, time, share);
      if Last(calls).kind == kind {
        assert WeighedRight(calls, |calls| - 1);
        MeanKeeps(Mean(Front(calls), Spike(|calls| - 1, l, time), kind), k, 0, share);
      }
    }
  }

  lemma {:induction false} StartsNear(a: nat, k: nat)
    requires k >= 1
    ensures Near(a, k, a * k)
  {
    assert k * (k - 1) >= 0;
  }

  lemma {:induction false} Exactly(a: nat, d: nat)
    requires d > 0
    ensures NextMean(0, d - 1, a * d) == a
  {
    ModIs(a * d, d, a, 0);
  }

  // The last section of the type with a wrong weight.
  lemma {:induction false} LastWrong(calls: seq<Call>, kind: nat, n: nat) returns (l: nat)
    requires n <= |calls|
    requires exists j :: 0 <= j < n && calls[j].kind == kind && !WeighedRight(calls, j)
    requires forall j :: n <= j < |calls| && calls[j].kind == kind ==> WeighedRight(calls, j)
    ensures l < |calls| && calls[l].kind == kind && !WeighedRight(calls, l)
    ensures forall j :: l < j < |calls| && calls[j].kind == kind ==> WeighedRight(calls, j)
  {
    if calls[n - 1].kind == kind && !WeighedRight(calls, n - 1) {
      l := n - 1;
    } else {
      l := LastWrong(calls, kind, n - 1);
    }
  }

  // A wrong weight makes the average miss the bounds for some times: a long section counts for too
  // little or for too much.
  lemma {:induction false} WrongMisses(calls: seq<Call>, kind: nat) returns (times: seq<nat>)
    requires !Balanced(calls, kind)
    ensures |times| == |calls| && !Accurate(calls, times, kind)
  {
    var l := LastWrong(calls, kind, |calls|);
    var k, n, w := Count(calls, kind), Count(calls[..l], kind) + 1, Commits(calls[..l], calls[l].ro);
    CountPositive(calls, l, kind);
    times := Spike(|calls|, l, k * k * (w + 1));
    SpikeMean(calls, l, k * k, kind, k * k * (w + 1), k * k * n);
    Misses(k * k, k, n, w + 1, Mean(calls, times, kind));
  }

  lemma {:induction false} CountPositive(calls: seq<Call>, j: nat, kind: nat)
    requires j < |calls| && calls[j].kind == kind
    ensures Count(calls, kind) >= 1
  {
    if j < |calls| - 1 {
      CountPositive(Front(calls), j, kind);
    }
  }

  // The same mean is not near two totals that are k * k or more apart.
  lemma {:induction false} Misses(a: nat, k: nat, n: nat, d: nat, mean: nat)
    requires k >= 1 && n != d && a == k * k && Near(mean, k, a * n)
    ensures !Near(mean, k, a * d)
  {
    assert k * (k - 1) == a - k;
    if d > n {
      Apart(a, n, d);
    } else {
      Apart(a, d, n);
    }
  }

  lemma {:induction false} Apart(a: nat, x: nat, y: nat)
    requires x < y
    ensures a * x + a <= a * y
  {
    assert a * (y - x - 1) >= 0;
  }

  // The average is accurate for all times exactly when every section of the type is weighed by the
  // number of earlier samples of its type.
  lemma {:induction false} AccurateIffBalanced(calls: seq<Call>, kind: nat)
    ensures (forall times: seq<nat> :: |times| == |calls| ==> Accurate(calls, times, kind)) <==> Balanced(calls, kind)
  {
    if Balanced(calls, kind) {
      forall times: seq<nat> | |times| == |calls|
        ensures Accurate(calls, times, kind)
      {
        MeanBounds(calls, times, kind);
      }
    } else {
      var times := WrongMisses(calls, kind);
    }
  }

  lemma {:induction false} CountWithin(calls: seq<Call>, kind: nat, ro: bool)
    requires OneMode(calls, kind, ro)
    ensures Count(calls, kind) <= Commits(calls, ro)
    ensures Count(calls, kind) == Commits(calls, ro) <==>
      forall i :: 0 <= i < |calls| && calls[i].ro == ro ==> calls[i].kind == kind
  {
    if calls != [] {
      CountWithin(Front(calls), kind, ro);
    }
  }

  // For a type that runs in one mode the average is accurate for all times exactly when no other type
  // ran in that mode before a section of this one; sections of the other mode do not matter.
  lemma {:induction false} AccurateIffUnmixed(calls: seq<Call>, kind: nat, ro: bool)
    requires OneMode(calls, kind, ro)
    ensures (forall times: seq<nat> :: |times| == |calls| ==> Accurate(calls, times, kind)) <==> Unmixed(calls, kind)
  {
    forall j | 0 <= j < |calls| && calls[j].kind == kind
      ensures WeighedRight(calls, j) <==>
        forall i :: 0 <= i < j && calls[i].ro == calls[j].ro ==> calls[i].kind == kind
    {
      CountWithin(calls[..j], kind, ro);
      assert forall i :: 0 <= i < j ==> calls[..j][i] == calls[i];
    }
    AccurateIffBalanced(calls, kind);
  }

  lemma {:induction false} StaysZero(k: nat)
    ensures NextMean(0, k, k) == 0
  {
    ModIs(k, k + 1, 0, k);
  }

  // The lower bound is reached: samples 0, 1, .., k - 1 leave the average at 0.
  lemma {:induction false} MeanUndershoots(ro: bool, kind: nat, k: nat)
    ensures var calls, times := seq(k, _ => Call(ro, kind)), seq(k, i => i);
      && Mean(calls, times, kind) == 0 && Count(calls, kind) == Commits(calls, ro) == k
      && 2 * TotalTime(calls, times, kind) == k * (k - 1)
  {
    hide NextMean;
    if k > 0 {
      StaysZero(k - 1);
      MeanUndershoots(ro, kind, k - 1);
      var calls, times := seq(k, _ => Call(ro, kind)), seq(k, i => i);
      assert Front(calls) == seq(k - 1, _ => Call(ro, kind)) && Front(times) == seq(k - 1, i => i);
      Triangle(k - 1);
    }
  }

  // ---------- moving average (10.04) ----------

  // avg_cycles after a sample.
  function NextAverage(avg: nat, time: nat): nat {
    (avg * 19 + time) / 20
  }

  function Average(start: nat, samples: seq<nat>): nat {
    if samples == [] then start else NextAverage(Average(start, Front(samples)), Last(samples))
  }

  // The average stays within the range of its start and its samples.
  lemma {:induction false} AverageInRange(start: nat, samples: seq<nat>, lo: nat, hi: nat)
    requires lo <= start <= hi && forall i :: 0 <= i < |samples| ==> lo <= samples[i] <= hi
    ensures lo <= Average(start, samples) <= hi
  {
    if samples != [] {
      AverageInRange(start, Front(samples), lo, hi);
    }
  }

  // A constant input leaves the average alone exactly when it is at most 19 above the average.
  lemma {:induction false} FixedPoint(avg: nat, time: nat)
    ensures NextAverage(avg, time) == avg <==> avg <= time <= avg + 19
    ensures avg > time ==> time <= NextAverage(avg, time) < avg
    ensures time > avg + 19 ==> avg < NextAverage(avg, time) <= time
  {
  }

  function Constant(time: nat, k: nat): seq<nat> {
    seq(k, _ => time)
  }

  // On a constant input the average settles: exactly at the input when it comes from above, and
  // within 19 below it when it comes from below.
  lemma {:induction false} AverageSettles(start: nat, time: nat, k: nat)
    requires k >= start - time && k >= time - start
    ensures var avg := Average(start, Constant(time, k));
      && NextAverage(avg, time) == avg
      && (start >= time ==> avg == time)
      && (start < time ==> start <= avg <= time <= avg + 19)
  {
    Approaches(start, time, k);
    FixedPoint(Average(start, Constant(time, k)), time);
  }

  // After k samples the average has settled or has moved at least k towards the input.
  lemma {:induction false} Approaches(start: nat, time: nat, k: nat)
    ensures var avg := Average(start, Constant(time, k));
      && (start >= time ==> avg >= time && (avg == time || avg <= start - k))
      && (start < time ==> start <= avg <= time && (time <= avg + 19 || avg >= start + k))
  {
    if k > 0 {
      var c := Constant(time, k);
      assert Front(c) == Constant(time, k - 1) && Last(c) == time;
      Approaches(start, time, k - 1);
      FixedPoint(Average(start, Front(c)), time);
    }
  }

  /** avg_cycles by section type with the two counters of commits, as the sampling thread keeps them. */
  class SectionTimer {
    const avgCycles: array<nat>
    var readCommits: nat
    var writeCommits: nat
    ghost var calls: seq<Call>
    ghost var times: seq<nat>

    ghost predicate Valid()
      reads this, avgCycles
    {
      && |calls| == |times| && readCommits == Commits(calls, true) && writeCommits == Commits(calls, false)
      && forall kind :: 0 <= kind < avgCycles.Length ==> avgCycles[kind] == Mean(calls, times, kind)
    }

    constructor (types: nat)
      ensures Valid() && fresh(avgCycles) && avgCycles.Length == types && calls == []
    {
      avgCycles := new nat[types](_ => 0);
      readCommits, writeCommits := 0, 0;
      calls, times := [], [];
    }

    // END_RDTSC of a section of the given mode, type and time, and TM_END's count of commits.
    method Record(ro: bool, kind: nat, time: nat)
      requires Valid() && kind < avgCycles.Length
      modifies this, avgCycles
      ensures Valid() && calls == old(calls) + [Call(ro, kind)] && times == old(times) + [time]
      ensures forall other :: 0 <= other < avgCycles.Length && other != kind ==>
        avgCycles[other] == old(avgCycles[other])
      ensures Balanced(calls, kind) ==> Accurate(calls, times, kind)
    {
      FrontOfAppend(calls, Call(ro, kind));
      FrontOfAppend(times, time);
      var commits := if ro then readCommits else writeCommits;
      avgCycles[kind] := (avgCycles[kind] * commits + time) / (commits + 1);
      if ro {
        readCommits := readCommits + 1;
      } else {
        writeCommits := writeCommits + 1;
      }
      calls := calls + [Call(ro, kind)];
      times := times + [time];
      if Balanced(calls, kind) {
        MeanBounds(calls, times, kind);
      }
    }
  }
}
