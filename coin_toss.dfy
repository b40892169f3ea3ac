/**
 * The running-mean producer of app.py (`toss_coin`). The random draw of n
 * Bernoulli outcomes is a parameter (`outcomes`); the rows the producer adds
 * to the live chart are returned as the sequence `emitted`; the division is
 * exact (`real`).
 */
module CoinToss {
  import opened Wrappers

  /** Every outcome is a coin face: 0 (tails) or 1 (heads). */
  predicate IsBinary(outcomes: seq<int>) {
    forall i :: 0 <= i < |outcomes| ==> outcomes[i] == 0 || outcomes[i] == 1
  }

  /** The number of outcomes equal to 1 (heads). */
  function CountOnes(s: seq<int>): (r: nat)
    ensures r <= |s|
  {
    if s == [] then 0 else CountOnes(s[..|s| - 1]) + (if s[|s| - 1] == 1 then 1 else 0)
  }

  /** The running mean after the k-th outcome (1-based): heads so far divided by k. */
  function SampleAt(outcomes: seq<int>, k: nat): (r: real)
    requires 1 <= k <= |outcomes|
    ensures 0.0 <= r <= 1.0
  {
    CountOnes(outcomes[..k]) as real / k as real
  }

  /** The samples the producer emits, one per outcome, in outcome order. */
  function Samples(outcomes: seq<int>): (r: seq<real>)
    ensures |r| == |outcomes|
    ensures forall k :: 0 <= k < |r| ==> r[k] == SampleAt(outcomes, k + 1)
    ensures forall k :: 0 <= k < |r| ==> 0.0 <= r[k] <= 1.0
  {
    if outcomes == [] then []
    else
      var prefix := outcomes[..|outcomes| - 1];
      assert forall k :: 1 <= k <= |prefix| ==> prefix[..k] == outcomes[..k];
      Samples(prefix) + [SampleAt(outcomes, |outcomes|)]
  }

  /** The value the producer returns: the last sample, or None if nothing was drawn. */
  function FinalMean(outcomes: seq<int>): (r: Option<real>)
    ensures r.Some? <==> |outcomes| > 0
    ensures r.Some? ==> r.value == Samples(outcomes)[|outcomes| - 1]
    ensures r.Some? ==> 0.0 <= r.value <= 1.0
  {
    if outcomes == [] then None else Some(SampleAt(outcomes, |outcomes|))
  }

  /** Drawing one more outcome adds one sample and maybe one head. */
  lemma PrefixStep(outcomes: seq<int>, n: nat)
    requires n < |outcomes|
    ensures CountOnes(outcomes[..n + 1]) == CountOnes(outcomes[..n]) + (if outcomes[n] == 1 then 1 else 0)
    ensures Samples(outcomes[..n + 1]) == Samples(outcomes[..n]) + [SampleAt(outcomes, n + 1)]
  {
    var p := outcomes[..n + 1];
    assert p[..n] == outcomes[..n];
    assert p[..n + 1] == p;
  }

  /**
   * Walks the outcomes once, counting outcomes and heads, and emits the running
   * mean after each outcome; returns the last mean (None when there are none).
   */
  method TossCoin(outcomes: seq<int>) returns (emitted: seq<real>, meanOutcome: Option<real>)
    ensures emitted == Samples(outcomes)
    ensures meanOutcome == FinalMean(outcomes)
    ensures meanOutcome.None? <==> emitted == []
    ensures meanOutcome.Some? ==> meanOutcome.value == emitted[|emitted| - 1]
  {
    emitted := [];
    meanOutcome := None;
    var outcomeNo := 0;
    var outcome1Count := 0;
    while outcomeNo < |outcomes|
      invariant 0 <= outcomeNo <= |outcomes|
      invariant outcome1Count == CountOnes(outcomes[..outcomeNo])
      invariant emitted == Samples(outcomes[..outcomeNo])
      invariant meanOutcome == FinalMean(outcomes[..outcomeNo])
    {
      var outcome := outcomes[outcomeNo];
      PrefixStep(outcomes, outcomeNo);
      outcomeNo := outcomeNo + 1;
      if outcome == 1 {
        outcome1Count := outcome1Count + 1;
      }
      meanOutcome := Some(outcome1Count as real / outcomeNo as real);
      emitted := emitted + [meanOutcome.value];
    }
    assert outcomes[..outcomeNo] == outcomes;
  }

  /** All heads exactly when the count of heads is the number of outcomes. */
  lemma {:induction false} CountOnesAll(s: seq<int>)
    ensures CountOnes(s) == |s| <==> forall i :: 0 <= i < |s| ==> s[i] == 1
  {
    if s != [] {
      var p := s[..|s| - 1];
      CountOnesAll(p);
      assert forall i :: 0 <= i < |p| ==> p[i] == s[i];
    }
  }

  /** No heads exactly when the count of heads is zero. */
  lemma {:induction false} CountOnesNone(s: seq<int>)
    ensures CountOnes(s) == 0 <==> forall i :: 0 <= i < |s| ==> s[i] != 1
  {
    if s != [] {
      var p := s[..|s| - 1];
      CountOnesNone(p);
      assert forall i :: 0 <= i < |p| ==> p[i] == s[i];
    }
  }

  /** The first sample is the first outcome itself. */
  lemma FirstSample(outcomes: seq<int>)
    requires |outcomes| > 0
    ensures Samples(outcomes)[0] == (if outcomes[0] == 1 then 1.0 else 0.0)
    ensures outcomes[0] == 0 || outcomes[0] == 1 ==> Samples(outcomes)[0] == outcomes[0] as real
  {
    assert outcomes[..1][..0] == [];
  }

  /**
   * The running mean can equally be updated from the previous mean alone:
   * the (k+1)-th mean is the k-th mean scaled back to a count, plus the new
   * outcome, over k + 1. (The loop instead keeps the count and divides afresh.)
   */
  lemma SampleRecurrence(outcomes: seq<int>, k: nat)
    requires 1 <= k < |outcomes|
    ensures SampleAt(outcomes, k + 1)
         == (SampleAt(outcomes, k) * k as real + (if outcomes[k] == 1 then 1.0 else 0.0)) / (k + 1) as real
  {
    assert outcomes[..k + 1][..k] == outcomes[..k];
  }

  /** A sample is 0 exactly when no head was drawn so far, and 1 exactly when only heads were. */
  lemma SampleExtremes(outcomes: seq<int>, k: nat)
    requires 1 <= k <= |outcomes|
    ensures SampleAt(outcomes, k) == 0.0 <==> CountOnes(outcomes[..k]) == 0
    ensures SampleAt(outcomes, k) == 1.0 <==> CountOnes(outcomes[..k]) == k
  {
    var c := CountOnes(outcomes[..k]) as real;
    assert SampleAt(outcomes, k) * k as real == c;
  }

  /** No head among the outcomes: every sample is 0. */
  lemma NoHeadsGiveZeroSamples(outcomes: seq<int>)
    requires forall i :: 0 <= i < |outcomes| ==> outcomes[i] != 1
    ensures forall k :: 0 <= k < |outcomes| ==> Samples(outcomes)[k] == 0.0
  {
    forall k | 0 <= k < |outcomes| ensures Samples(outcomes)[k] == 0.0 {
      var p := outcomes[..k + 1];
      assert forall i :: 0 <= i < |p| ==> p[i] == outcomes[i];
      CountOnesNone(p);
      SampleExtremes(outcomes, k + 1);
    }
  }

  /** Only heads among the outcomes: every sample is 1. */
  lemma OnlyHeadsGiveOneSamples(outcomes: seq<int>)
    requires forall i :: 0 <= i < |outcomes| ==> outcomes[i] == 1
    ensures forall k :: 0 <= k < |outcomes| ==> Samples(outcomes)[k] == 1.0
  {
    forall k | 0 <= k < |outcomes| ensures Samples(outcomes)[k] == 1.0 {
      var p := outcomes[..k + 1];
      assert forall i :: 0 <= i < |p| ==> p[i] == outcomes[i];
      CountOnesAll(p);
      SampleExtremes(outcomes, k + 1);
    }
  }

  /** A last sample of 0 means no head was drawn at all. */
  lemma ZeroMeanMeansNoHeads(outcomes: seq<int>)
    requires |outcomes| > 0 && Samples(outcomes)[|outcomes| - 1] == 0.0
    ensures forall i :: 0 <= i < |outcomes| ==> outcomes[i] != 1
  {
    var n := |outcomes|;
    SampleExtremes(outcomes, n);
    assert outcomes[..n] == outcomes;
    CountOnesNone(outcomes);
  }

  /** A last sample of 1 means every outcome was a head. */
  lemma OneMeanMeansOnlyHeads(outcomes: seq<int>)
    requires |outcomes| > 0 && Samples(outcomes)[|outcomes| - 1] == 1.0
    ensures forall i :: 0 <= i < |outcomes| ==> outcomes[i] == 1
  {
    var n := |outcomes|;
    SampleExtremes(outcomes, n);
    assert outcomes[..n] == outcomes;
    CountOnesAll(outcomes);
  }

  /** With 0/1 outcomes, every sample is 0 exactly when every outcome is 0. */
  lemma AllTailsIffAllSamplesZero(outcomes: seq<int>)
    requires IsBinary(outcomes)
    ensures (forall k :: 0 <= k < |outcomes| ==> Samples(outcomes)[k] == 0.0)
        <==> (forall i :: 0 <= i < |outcomes| ==> outcomes[i] == 0)
  {
    var n := |outcomes|;
    if forall i :: 0 <= i < n ==> outcomes[i] == 0 {
      NoHeadsGiveZeroSamples(outcomes);
    } else {
      var i :| 0 <= i < n && outcomes[i] != 0;
      if Samples(outcomes)[n - 1] == 0.0 {
        ZeroMeanMeansNoHeads(outcomes);
      }
      assert Samples(outcomes)[n - 1] != 0.0;
    }
  }

  /** Every sample is 1 exactly when every outcome is 1. */
  lemma AllHeadsIffAllSamplesOne(outcomes: seq<int>)
    ensures (forall k :: 0 <= k < |outcomes| ==> Samples(outcomes)[k] == 1.0)
        <==> (forall i :: 0 <= i < |outcomes| ==> outcomes[i] == 1)
  {
    var n := |outcomes|;
    if forall i :: 0 <= i < n ==> outcomes[i] == 1 {
      OnlyHeadsGiveOneSamples(outcomes);
    } else {
      var i :| 0 <= i < n && outcomes[i] != 1;
      if Samples(outcomes)[n - 1] == 1.0 {
        OneMeanMeansOnlyHeads(outcomes);
      }
      assert Samples(outcomes)[n - 1] != 1.0;
    }
  }
}
