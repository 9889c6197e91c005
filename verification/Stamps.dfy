/** Source timestamps: conversion (adapter_node.cpp), strict guards and window metrics (validation.cpp). */
module Stamps {
  import opened Contracts

  const NANOSECONDS_PER_SECOND: int := 1_000_000_000
  const INT64_MAX: int := 0x7fff_ffff_ffff_ffff

  type int32 = i: int | -0x8000_0000 <= i < 0x8000_0000
  type uint32 = i: int | 0 <= i < 0x1_0000_0000

  /** builtin_interfaces/msg/Time. */
  datatype Time = Time(sec: int32, nanosec: uint32)

  function StampToNanoseconds(stamp: Time): Option<int> {
    if stamp.sec < 0 || stamp.nanosec >= NANOSECONDS_PER_SECOND then None
    else if stamp.sec > (INT64_MAX - stamp.nanosec) / NANOSECONDS_PER_SECOND then None
    else Some(stamp.sec * NANOSECONDS_PER_SECOND + stamp.nanosec)
  }

  /**
   Exactly the normalized nonnegative stamps convert, the overflow guard never rejects one of them, and the stamp can be
   read back from its value.
   */
  lemma StampConversion(stamp: Time)
    ensures StampToNanoseconds(stamp).Some? <==> stamp.sec >= 0 && stamp.nanosec < NANOSECONDS_PER_SECOND
    ensures StampToNanoseconds(stamp).Some? ==>
              var ns := StampToNanoseconds(stamp).value;
              0 <= ns <= INT64_MAX && ns / 1_000_000_000 == stamp.sec && ns % 1_000_000_000 == stamp.nanosec
  {
    if stamp.sec >= 0 && stamp.nanosec < NANOSECONDS_PER_SECOND {
      assert (INT64_MAX - stamp.nanosec) / NANOSECONDS_PER_SECOND >= 0x8000_0000;
    }
  }

  /** Conversion keeps the order of normalized stamps, so it is also injective on them. */
  lemma StampConversionOrdered(a: Time, b: Time)
    requires StampToNanoseconds(a).Some? && StampToNanoseconds(b).Some?
    ensures StampToNanoseconds(a).value < StampToNanoseconds(b).value <==>
            a.sec < b.sec || (a.sec == b.sec && a.nanosec < b.nanosec)
    ensures StampToNanoseconds(a) == StampToNanoseconds(b) <==> a == b
  {
  }

  function Seconds(nanoseconds: int): real {
    nanoseconds as real / 1_000_000_000.0
  }

  lemma SecondsMonotone(a: int, b: int)
    ensures a <= b <==> Seconds(a) <= Seconds(b)
    ensures Seconds(a) + Seconds(b) == Seconds(a + b)
    ensures Seconds(0) == 0.0
  {
  }

  /** So many nanoseconds are longer than so many seconds. */
  predicate Longer(nanoseconds: int, seconds: real) {
    nanoseconds as real > seconds * 1_000_000_000.0
  }

  lemma SecondsMeans(nanoseconds: int, seconds: real)
    ensures Seconds(nanoseconds) * 1_000_000_000.0 == nanoseconds as real
    ensures Seconds(nanoseconds) > seconds <==> Longer(nanoseconds, seconds)
  {
  }

  // ----- strict guards -----

  datatype StampOrder = Accept | Duplicate | Nonmonotonic

  function StampOrderAfter(last: Option<int>, stamp: int): Result<StampOrder> {
    if stamp <= 0 then Failure(NumericContractViolation)
    else if last.None? || stamp > last.value then Success(Accept)
    else if stamp == last.value then Success(Duplicate)
    else Success(Nonmonotonic)
  }

  /** What committing a stamp leaves in the guard. */
  function CommitStamp(last: Option<int>, stamp: int): Result<Option<int>> {
    var order :- StampOrderAfter(last, stamp);
    if order != Accept then Failure(NumericContractViolation) else Success(Some(stamp))
  }

  class StrictStampGuard {
    var lastAcceptedNs: Option<int>

    constructor ()
      ensures lastAcceptedNs == None
    {
      lastAcceptedNs := None;
    }

    /** How a stamp compares with the last committed one; a stamp that is not positive is an error. */
    method Classify(stampNs: int) returns (order: Result<StampOrder>)
      ensures order == StampOrderAfter(lastAcceptedNs, stampNs)
      ensures order == Failure(NumericContractViolation) <==> stampNs <= 0
      ensures order == Success(Accept) <==> stampNs > 0 && (lastAcceptedNs == None || lastAcceptedNs.value < stampNs)
      ensures order == Success(Duplicate) <==> stampNs > 0 && lastAcceptedNs == Some(stampNs)
      ensures order == Success(Nonmonotonic) <==> lastAcceptedNs.Some? && 0 < stampNs < lastAcceptedNs.value
    {
      if stampNs <= 0 {
        return Failure(NumericContractViolation);
      }
      if lastAcceptedNs.None? || stampNs > lastAcceptedNs.value {
        return Success(Accept);
      }
      if stampNs == lastAcceptedNs.value {
        return Success(Duplicate);
      }
      return Success(Nonmonotonic);
    }

    /** Advances to a strictly later stamp, or fails and keeps the guard as it was. */
    method Commit(stampNs: int) returns (done: Result<()>)
      modifies this
      ensures done.Success? <==> stampNs > 0 && (old(lastAcceptedNs).None? || stampNs > old(lastAcceptedNs).value)
      ensures lastAcceptedNs == if done.Success? then Some(stampNs) else old(lastAcceptedNs)
      ensures done.Failure? ==> done.error == NumericContractViolation
    {
      var order := Classify(stampNs);
      if order.Failure? {
        return Failure(order.error);
      }
      if order.value != Accept {
        return Failure(NumericContractViolation);
      }
      lastAcceptedNs := Some(stampNs);
      return Success(());
    }
  }

  /** The guards accept exactly the strictly increasing positive sequences, each stamp once. */
  function CommitAll(last: Option<int>, stamps: seq<int>): Result<Option<int>>
    decreases |stamps|
  {
    if stamps == [] then Success(last)
    else
      var next :- CommitStamp(last, stamps[0]);
      CommitAll(next, stamps[1..])
  }

  lemma {:induction false} GuardAcceptsStrictlyIncreasing(last: Option<int>, stamps: seq<int>)
    ensures CommitAll(last, stamps).Success? <==>
            && StrictlyIncreasing(stamps) && Positive(stamps)
            && (last.Some? && stamps != [] ==> last.value < stamps[0])
    ensures CommitAll(last, stamps).Success? && stamps != [] ==>
            CommitAll(last, stamps).value == Some(stamps[|stamps| - 1])
    decreases |stamps|
  {
    if stamps == [] {
    } else {
      if CommitStamp(last, stamps[0]).Success? {
        GuardAcceptsStrictlyIncreasing(Some(stamps[0]), stamps[1..]);
        if stamps[1..] != [] {
          assert stamps[1..][|stamps| - 2] == stamps[|stamps| - 1];
          assert stamps[1] == stamps[1..][0];
        }
        if CommitAll(last, stamps).Success? {
          TailIncreasing(stamps);
        } else if StrictlyIncreasing(stamps) && Positive(stamps) {
          assert StrictlyIncreasing(stamps[1..]) && Positive(stamps[1..]);
          assert false;
        }
      }
    }
  }

  lemma TailIncreasing(stamps: seq<int>)
    requires stamps != [] && StrictlyIncreasing(stamps[1..]) && Positive(stamps[1..]) && stamps[0] > 0
    requires |stamps| > 1 ==> stamps[0] < stamps[1]
    ensures StrictlyIncreasing(stamps) && Positive(stamps)
  {
    var t := stamps[1..];
    forall i, j | 0 <= i < j < |stamps|
      ensures stamps[i] < stamps[j]
    {
      assert stamps[j] == t[j - 1];
      if i == 0 {
        assert t[0] == stamps[1];
      } else {
        assert stamps[i] == t[i - 1];
      }
    }
    forall i | 0 <= i < |stamps|
      ensures stamps[i] > 0
    {
      if i > 0 {
        assert stamps[i] == t[i - 1];
      }
    }
  }

  // ----- differences and windows -----

  ghost predicate StrictlyIncreasing(stamps: seq<int>) {
    forall i, j | 0 <= i < j < |stamps| :: stamps[i] < stamps[j]
  }

  ghost predicate Positive(stamps: seq<int>) {
    forall i | 0 <= i < |stamps| :: stamps[i] > 0
  }

  function AbsoluteDifference(a: int, b: int): nat {
    if a >= b then a - b else b - a
  }

  function AbsoluteStampDifferenceSeconds(firstNs: int, secondNs: int): Result<real> {
    if firstNs <= 0 || secondNs <= 0 then Failure(NumericContractViolation)
    else Success(Seconds(AbsoluteDifference(firstNs, secondNs)))
  }

  /** Two stamps lie further apart than so many seconds. */
  predicate FurtherApart(a: int, b: int, seconds: real) {
    Longer(a - b, seconds) || Longer(b - a, seconds)
  }

  lemma FurtherApartMeans(a: int, b: int, seconds: real)
    requires seconds >= 0.0
    ensures Seconds(AbsoluteDifference(a, b)) > seconds <==> FurtherApart(a, b, seconds)
  {
  }

  datatype StampWindowMetrics = StampWindowMetrics(rateHz: real, maximumGapSec: real)

  function Gap(stamps: seq<int>, i: nat): real
    requires 0 < i < |stamps|
  {
    Seconds(stamps[i] - stamps[i - 1])
  }

  /** The largest gap between neighbours, or zero. */
  function MaximumGap(stamps: seq<int>): real {
    if |stamps| < 2 then 0.0
    else
      var before := MaximumGap(stamps[..|stamps| - 1]);
      var last := Gap(stamps, |stamps| - 1);
      if last > before then last else before
  }

  /** Intervals per second between the first and the last stamp. */
  function MeanRate(stamps: seq<int>): real
    requires |stamps| >= 2 && stamps[0] < stamps[|stamps| - 1]
  {
    (|stamps| - 1) as real / Seconds(stamps[|stamps| - 1] - stamps[0])
  }

  ghost function WindowMetrics(stamps: seq<int>): Result<Option<StampWindowMetrics>> {
    if |stamps| < 2 then Success(None)
    else if StrictlyIncreasing(stamps) && Positive(stamps) then
      Success(Some(StampWindowMetrics(MeanRate(stamps), MaximumGap(stamps))))
    else Failure(NumericContractViolation)
  }

  /** The number of intervals is the rate times the time they take together; the largest gap is one of them. */
  ghost predicate MetricsMean(stamps: seq<int>, m: StampWindowMetrics) {
    && |stamps| >= 2
    && m.rateHz * SumOfGaps(stamps) == (|stamps| - 1) as real
    && m.rateHz * (stamps[|stamps| - 1] - stamps[0]) as real == (|stamps| - 1) as real * 1_000_000_000.0
    && (forall i | 0 < i < |stamps| :: Gap(stamps, i) <= m.maximumGapSec)
    && (exists i | 0 < i < |stamps| :: Gap(stamps, i) == m.maximumGapSec)
  }

  lemma {:induction false} MaximumGapAttained(stamps: seq<int>)
    requires |stamps| >= 2 && StrictlyIncreasing(stamps)
    ensures exists i | 0 < i < |stamps| :: Gap(stamps, i) == MaximumGap(stamps)
  {
    var n := |stamps| - 1;
    var before := stamps[..n];
    if n >= 2 {
      MaximumGapAttained(before);
      var j :| 0 < j < n && Gap(before, j) == MaximumGap(before);
      assert Gap(stamps, j) == Gap(before, j);
      assert Gap(stamps, n) == Gap(stamps, n);
    } else {
      GapsAtLeastOneTick(stamps);
      assert MaximumGap(before) == 0.0;
      assert Gap(stamps, 1) == MaximumGap(stamps);
    }
  }

  lemma RateEquation(n: real, span: int)
    requires span > 0
    ensures n / Seconds(span) * Seconds(span) == n
    ensures n / Seconds(span) * span as real == n * 1_000_000_000.0
  {
    var seconds := Seconds(span);
    assert seconds > 0.0 && span as real == seconds * 1_000_000_000.0;
    hide Seconds;
    QuotientTimes(n, seconds);
  }

  lemma QuotientTimes(n: real, x: real)
    requires x > 0.0
    ensures n / x * x == n
    ensures n / x * (x * 1_000_000_000.0) == n * 1_000_000_000.0
  {
    var q := n / x;
    assert q * x == n;
    assert q * (x * 1_000_000_000.0) == (q * x) * 1_000_000_000.0;
  }

  lemma RateIsMean(stamps: seq<int>)
    requires |stamps| >= 2 && StrictlyIncreasing(stamps)
    ensures MeanRate(stamps) * SumOfGaps(stamps) == (|stamps| - 1) as real
    ensures MeanRate(stamps) * (stamps[|stamps| - 1] - stamps[0]) as real == (|stamps| - 1) as real * 1_000_000_000.0
  {
    hide Seconds;
    hide SumOfGaps;
    GapsTelescope(stamps);
    RateEquation((|stamps| - 1) as real, stamps[|stamps| - 1] - stamps[0]);
  }

  lemma MetricsOfWindow(stamps: seq<int>)
    requires |stamps| >= 2 && StrictlyIncreasing(stamps)
    ensures MetricsMean(stamps, StampWindowMetrics(MeanRate(stamps), MaximumGap(stamps)))
  {
    hide SumOfGaps;
    hide Gap;
    hide MaximumGap;
    hide MeanRate;
    RateIsMean(stamps);
    MaximumGapAttained(stamps);
    MaximumGapNonnegative(stamps);
    MaximumGapBounds(stamps, MaximumGap(stamps));
  }

  method ComputeStampWindowMetrics(stampsNs: seq<int>) returns (metrics: Result<Option<StampWindowMetrics>>)
    ensures metrics == WindowMetrics(stampsNs)
    ensures metrics == Success(None) <==> |stampsNs| < 2
    ensures metrics.Failure? <==> |stampsNs| >= 2 && !(StrictlyIncreasing(stampsNs) && Positive(stampsNs))
    ensures metrics.Success? && metrics.value.Some? ==> MetricsMean(stampsNs, metrics.value.value)
  {
    if |stampsNs| < 2 {
      return Success(None);
    }
    var maximumGapSec := 0.0;
    for index := 0 to |stampsNs|
      invariant StrictlyIncreasing(stampsNs[..index]) && Positive(stampsNs[..index])
      invariant maximumGapSec == MaximumGap(stampsNs[..index])
    {
      if stampsNs[index] <= 0 {
        return Failure(NumericContractViolation);
      }
      assert stampsNs[..index + 1][..index] == stampsNs[..index];
      if index == 0 {
        continue;
      }
      if stampsNs[index] <= stampsNs[index - 1] {
        return Failure(NumericContractViolation);
      }
      var gapSec := Seconds(stampsNs[index] - stampsNs[index - 1]);
      assert gapSec == Gap(stampsNs[..index + 1], index);
      assert StrictlyIncreasing(stampsNs[..index + 1]) by {
        assert stampsNs[..index][index - 1] < stampsNs[index];
      }
      if gapSec > maximumGapSec {
        maximumGapSec := gapSec;
      }
    }
    assert stampsNs[..|stampsNs|] == stampsNs;
    MetricsOfWindow(stampsNs);
    hide MetricsMean;
    var durationSec := Seconds(stampsNs[|stampsNs| - 1] - stampsNs[0]);
    return Success(Some(StampWindowMetrics((|stampsNs| - 1) as real / durationSec, maximumGapSec)));
  }

  /** MaximumGap is the least upper bound of the gaps. */
  lemma {:induction false} MaximumGapBounds(stamps: seq<int>, limit: real)
    requires limit >= 0.0
    ensures MaximumGap(stamps) <= limit <==> forall i | 0 < i < |stamps| :: Gap(stamps, i) <= limit
  {
    if |stamps| >= 2 {
      var n := |stamps| - 1;
      var t := stamps[..n];
      MaximumGapBounds(t, limit);
      assert forall i | 0 < i < n :: Gap(t, i) == Gap(stamps, i);
    }
  }

  ghost function SumOfGaps(stamps: seq<int>): real {
    if |stamps| < 2 then 0.0
    else SumOfGaps(stamps[..|stamps| - 1]) + Gap(stamps, |stamps| - 1)
  }

  /** The gaps telescope to the span. */
  lemma {:induction false} GapsTelescope(stamps: seq<int>)
    requires |stamps| >= 1
    ensures SumOfGaps(stamps) == Seconds(stamps[|stamps| - 1] - stamps[0])
  {
    var n := |stamps| - 1;
    if n > 0 {
      GapsTelescope(stamps[..n]);
      SecondsMonotone(stamps[n - 1] - stamps[0], stamps[n] - stamps[n - 1]);
    }
  }

  lemma PrefixGaps(stamps: seq<int>, n: nat)
    requires n <= |stamps|
    ensures forall i | 0 < i < n :: Gap(stamps[..n], i) == Gap(stamps, i)
  {
  }

  /** Bounds on every gap bound the sum of the gaps. */
  lemma {:induction false} GapsBoundSum(stamps: seq<int>, low: real, high: real)
    requires forall i | 0 < i < |stamps| :: low <= Gap(stamps, i) <= high
    requires |stamps| >= 1
    ensures (|stamps| - 1) as real * low <= SumOfGaps(stamps) <= (|stamps| - 1) as real * high
  {
    hide Gap;
    var n := |stamps| - 1;
    if n > 0 {
      PrefixGaps(stamps, n);
      GapsBoundSum(stamps[..n], low, high);
      OneMore(n - 1, low);
      OneMore(n - 1, high);
    }
  }

  lemma OneMore(n: nat, x: real)
    ensures (n + 1) as real * x == n as real * x + x
  {
  }

  /** Distinct stamps are at least a nanosecond apart. */
  lemma GapsAtLeastOneTick(stamps: seq<int>)
    requires StrictlyIncreasing(stamps)
    ensures forall i | 0 < i < |stamps| :: Seconds(1) <= Gap(stamps, i)
    ensures |stamps| >= 2 ==> Seconds(stamps[|stamps| - 1] - stamps[0]) > 0.0
    ensures Seconds(1) > 0.0
  {
  }

  /** The mean rate of a window lies between the reciprocals of any bounds on its gaps. */
  lemma RateWithinGapBounds(stamps: seq<int>, low: real, high: real)
    requires |stamps| >= 2 && StrictlyIncreasing(stamps)
    requires 0.0 < low && forall i | 0 < i < |stamps| :: low <= Gap(stamps, i) <= high
    ensures 1.0 <= MeanRate(stamps) * high
    ensures MeanRate(stamps) * low <= 1.0
  {
    hide Gap;
    hide SumOfGaps;
    hide Seconds;
    GapsTelescope(stamps);
    GapsBoundSum(stamps, low, high);
    GapsAtLeastOneTick(stamps);
    RatioBounds((|stamps| - 1) as real, Seconds(stamps[|stamps| - 1] - stamps[0]), low, high, MeanRate(stamps));
  }

  lemma RatioBounds(n: real, span: real, low: real, high: real, rate: real)
    requires n > 0.0 && span > 0.0 && rate == n / span
    requires n * low <= span <= n * high
    ensures 1.0 <= rate * high
    ensures rate * low <= 1.0
  {
    assert rate * span == n;
    QuotientScaled(n, span, high, rate);
    QuotientScaled(n, span, low, rate);
  }

  lemma QuotientScaled(n: real, span: real, x: real, rate: real)
    requires span > 0.0 && rate == n / span
    ensures n * x >= span ==> rate * x >= 1.0
    ensures n * x <= span ==> rate * x <= 1.0
  {
    assert rate * x == (n * x) / span;
    assert span / span == 1.0;
    DivideMonotone(n * x, span, span);
    DivideMonotone(span, n * x, span);
  }

  lemma DivideMonotone(a: real, b: real, c: real)
    requires c > 0.0
    ensures a <= b ==> a / c <= b / c
  {
  }

  /** In every window the rate times the largest gap is at least one. */
  lemma RateTimesMaximumGap(stamps: seq<int>)
    requires |stamps| >= 2 && StrictlyIncreasing(stamps)
    ensures MaximumGap(stamps) > 0.0
    ensures MeanRate(stamps) * MaximumGap(stamps) >= 1.0
  {
    hide Gap;
    hide MaximumGap;
    hide MeanRate;
    var m := MaximumGap(stamps);
    MaximumGapNonnegative(stamps);
    MaximumGapBounds(stamps, m);
    GapsAtLeastOneTick(stamps);
    assert Gap(stamps, 1) <= m;
    RateWithinGapBounds(stamps, Seconds(1), m);
  }

  lemma {:induction false} MaximumGapNonnegative(stamps: seq<int>)
    ensures MaximumGap(stamps) >= 0.0
  {
    if |stamps| >= 2 {
      MaximumGapNonnegative(stamps[..|stamps| - 1]);
    }
  }

  /**
   Without an over-long gap the rate is at least the reciprocal of the allowed gap, so a minimum rate is only ever
   missed when it exceeds that reciprocal.
   */
  lemma RateFloor(stamps: seq<int>, allowedGap: real, minimumRate: real)
    requires |stamps| >= 2 && StrictlyIncreasing(stamps)
    requires allowedGap > 0.0 && MaximumGap(stamps) <= allowedGap
    ensures MeanRate(stamps) >= 1.0 / allowedGap
    ensures MeanRate(stamps) < minimumRate ==> minimumRate > 1.0 / allowedGap
  {
    hide Gap;
    hide MaximumGap;
    hide MeanRate;
    MaximumGapBounds(stamps, allowedGap);
    GapsAtLeastOneTick(stamps);
    RateWithinGapBounds(stamps, Seconds(1), allowedGap);
    ReciprocalBound(MeanRate(stamps), allowedGap);
  }

  lemma ReciprocalBound(rate: real, gap: real)
    requires gap > 0.0 && rate * gap >= 1.0
    ensures rate >= 1.0 / gap
  {
    DivideMonotone(1.0, rate * gap, gap);
    assert (rate * gap) / gap == rate;
  }
}
