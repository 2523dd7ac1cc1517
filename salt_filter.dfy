/** The salinity filter of the T-HiGrow firmware (readSalt in src/main.cpp):
    120 ADC samples are stored in a uint16_t buffer, the buffer is sorted in
    place, every element except the first and the last is added into a
    uint32_t accumulator, and the sum is divided by 118 with integer
    division. */
module SaltFilter {
  import opened CInt
  import opened SampleWindow

  /** Number of samples per reading (`uint8_t samples = 120`). */
  const Samples: nat := 120

  /** The sorted buffer without its first and last slot. */
  function Window(sorted: seq<nat>): seq<nat>
    requires |sorted| >= 2
  {
    sorted[1..|sorted| - 1]
  }

  /** Sum of the window divided by its length, truncating. */
  function TrimmedMean(sorted: seq<nat>): nat
    requires |sorted| >= 3
  {
    Sum(Window(sorted)) / (|sorted| - 2)
  }

  /** The reading a window of samples yields: sort, trim one slot at each end, average. */
  function SaltReading(samples: seq<nat>): nat
    requires |samples| >= 3
  {
    TrimmedMean(SortSeq(samples))
  }

  /** In-place ascending sort of the buffer (the std::sort call). */
  method SortInPlace(a: array<U16>)
    modifies a
    ensures Sorted(a[..])
    ensures multiset(a[..]) == old(multiset(a[..]))
  {
    if a.Length == 0 {
      return;
    }
    for i := 1 to a.Length
      invariant SortedPrefix(a[..], i)
      invariant multiset(a[..]) == old(multiset(a[..]))
    {
      SinkInto(a, i);
    }
    assert a[..] == a[..a.Length];
  }

  /** The first n slots of s are in ascending order. */
  ghost predicate SortedPrefix(s: seq<nat>, n: nat)
  {
    forall p, q :: 0 <= p < q < n && q < |s| ==> s[p] <= s[q]
  }

  /** One pass of insertion sort: slot i is swapped down until it is in place
      among the already sorted slots 0..i-1. */
  method SinkInto(a: array<U16>, i: nat)
    requires i < a.Length && SortedPrefix(a[..], i)
    modifies a
    ensures SortedPrefix(a[..], i + 1)
    ensures multiset(a[..]) == old(multiset(a[..]))
  {
    var j := i;
    while j > 0 && a[j - 1] > a[j]
      invariant 0 <= j <= i
      invariant forall p, q :: 0 <= p < q <= i && p != j && q != j ==> a[p] <= a[q]
      invariant forall q :: j < q <= i ==> a[j] < a[q]
      invariant 0 < j < i ==> a[j - 1] <= a[j + 1]
      invariant multiset(a[..]) == old(multiset(a[..]))
    {
      Swap(a, j - 1, j);
      j := j - 1;
    }
  }

  /** Exchanges two slots (the sort only ever exchanges neighbours). */
  method Swap(a: array<U16>, i: nat, j: nat)
    requires i < j < a.Length
    modifies a
    ensures a[i] == old(a[j]) && a[j] == old(a[i])
    ensures forall k :: 0 <= k < a.Length && k != i && k != j ==> a[k] == old(a[k])
    ensures multiset(a[..]) == old(multiset(a[..]))
  {
    a[i], a[j] := a[j], a[i];
  }

  /** readSalt: the adc argument stands for the 120 successive analogRead(SALT_PIN)
      results. The result is below 2^32 (it is returned as a uint32_t), it is
      the trimmed mean of the sorted samples, and it lies between the
      smallest and the largest sample. */
  method ReadSalt(adc: seq<Adc>) returns (humi: nat)
    requires |adc| == Samples
    ensures humi < U32Modulus
    ensures humi == SaltReading(adc)
    ensures MinOf(adc) <= humi <= MaxOf(adc)
  {
    var buffer := FillBuffer(adc);
    SortInPlace(buffer);
    PermutationBounded(adc, buffer[..]);
    humi := SumInterior(buffer);
    humi := humi / (Samples - 2);
    SortedBufferReading(adc, buffer[..]);
  }

  /** The sampling loop: slot i of a fresh 120-slot buffer receives the i-th ADC reading. */
  method FillBuffer(adc: seq<Adc>) returns (buffer: array<U16>)
    requires |adc| == Samples
    ensures fresh(buffer)
    ensures buffer[..] == adc
  {
    buffer := new U16[Samples];
    for i := 0 to Samples
      invariant buffer[..i] == adc[..i]
    {
      buffer[i] := adc[i];
    }
    assert buffer[..] == buffer[..Samples];
  }

  /** The summing loop: every slot except index 0 and index 119 is added
      into a uint32_t accumulator, modulo 2^32 as in C. With 12-bit slots the
      addition never wraps, and the result is the exact sum of slots 1..118. */
  method SumInterior(buffer: array<U16>) returns (humi: nat)
    requires buffer.Length == Samples
    requires forall k :: 0 <= k < Samples ==> buffer[k] <= AdcMax
    ensures humi == Sum(buffer[1..Samples - 1])
    ensures humi <= (Samples - 2) * AdcMax
  {
    humi := 0;
    for i := 0 to Samples
      invariant humi == Sum(buffer[1..SummedUpTo(i)])
      invariant humi <= AdcMax * i
    {
      if i == 0 || i == Samples - 1 {
        continue;
      }
      assert buffer[1..i + 1][..i - 1] == buffer[1..i];
      humi := (humi + buffer[i]) % U32Modulus;
    }
    SumBounds(buffer[1..Samples - 1], 0, AdcMax);
  }

  /** What the sorted buffer's trimmed mean is, in terms of the samples. */
  lemma SortedBufferReading(adc: seq<Adc>, sorted: seq<nat>)
    requires |adc| == Samples && |sorted| == Samples
    requires Sorted(sorted) && multiset(sorted) == multiset(adc)
    ensures Sum(sorted[1..Samples - 1]) / (Samples - 2) == SaltReading(adc)
    ensures MinOf(adc) <= SaltReading(adc) <= MaxOf(adc)
  {
    SortedPermutationIsSortSeq(adc, sorted);
    SaltReadingBounds(adc);
  }

  /** Before iteration i of the summing loop, slots 1 .. SummedUpTo(i) - 1 have been added. */
  function SummedUpTo(i: nat): nat
  {
    if i <= 1 then 1 else if i < Samples - 1 then i else Samples - 1
  }

  /** The trimmed mean lies between the second-smallest and the second-largest sample. */
  lemma TrimmedMeanBounds(sorted: seq<nat>)
    requires |sorted| >= 3 && Sorted(sorted)
    ensures sorted[1] <= TrimmedMean(sorted) <= sorted[|sorted| - 2]
  {
    var w := Window(sorted);
    SumBounds(w, sorted[1], sorted[|sorted| - 2]);
    DivBetween(Sum(w), |w|, sorted[1], sorted[|sorted| - 2]);
  }

  /** The reading lies between the smallest and the largest sample. */
  lemma SaltReadingBounds(samples: seq<nat>)
    requires |samples| >= 3
    ensures MinOf(samples) <= SaltReading(samples) <= MaxOf(samples)
  {
    var t := SortSeq(samples);
    SortSeqEnds(samples);
    SortSeqSorted(samples);
    TrimmedMeanBounds(t);
  }

  /** With 12-bit samples the reading is at most 4095, so keeping it in a
      uint16_t at the call site loses nothing. */
  lemma SaltReadingFitsU16(adc: seq<Adc>)
    requires |adc| == Samples
    ensures SaltReading(adc) <= AdcMax
    ensures ToU16(SaltReading(adc)) == SaltReading(adc)
  {
    SaltReadingBounds(adc);
  }

  /** The accumulator never exceeds 118 * 4095 = 483210, far below 2^32. */
  lemma AccumulatorFitsU32(adc: seq<Adc>)
    requires |adc| == Samples
    ensures Sum(Window(SortSeq(adc))) <= (Samples - 2) * AdcMax < U32Modulus
  {
    var t := SortSeq(adc);
    PermutationBounded(adc, t);
    SumBounds(Window(t), 0, AdcMax);
  }

  /** The reading depends only on the multiset of samples, not on their order. */
  lemma SaltOrderIndependent(s1: seq<nat>, s2: seq<nat>)
    requires |s1| >= 3
    requires multiset(s1) == multiset(s2)
    ensures |s2| == |s1|
    ensures SaltReading(s1) == SaltReading(s2)
  {
    assert |multiset(s1)| == |multiset(s2)|;
    SortSeqPermutationInvariant(s1, s2);
  }

  /** Trimming goes by position: exactly one copy of the minimum and one copy
      of the maximum leave the window, however often they occur. */
  lemma TrimDropsOneMinAndOneMax(samples: seq<nat>)
    requires |samples| >= 3
    ensures multiset(Window(SortSeq(samples))) + multiset{MinOf(samples), MaxOf(samples)} == multiset(samples)
  {
    SortSeqEnds(samples);
    WindowMultiset(samples, SortSeq(samples), MinOf(samples), MaxOf(samples));
  }

  /** The window's sum is the samples' total less one minimum and one maximum. */
  lemma TrimmedSumValue(samples: seq<nat>)
    requires |samples| >= 3
    ensures Sum(Window(SortSeq(samples))) + MinOf(samples) + MaxOf(samples) == Sum(samples)
  {
    SortSeqEnds(samples);
    SumSortSeq(samples);
    WindowSumOf(samples, SortSeq(samples), MinOf(samples), MaxOf(samples));
  }

  /** For an arrangement t of the samples with the same total whose ends are
      lo and hi, the window sums to the total less lo and hi. */
  lemma WindowSumOf(samples: seq<nat>, t: seq<nat>, lo: nat, hi: nat)
    requires |samples| >= 2 && |t| == |samples| && Sum(t) == Sum(samples)
    requires t[0] == lo && t[|samples| - 1] == hi
    ensures Sum(Window(t)) + lo + hi == Sum(samples)
  {
    WindowSum(t);
  }

  /** For an arrangement t of the samples whose ends are lo and hi, the window
      holds the samples less one lo and one hi. */
  lemma WindowMultiset(samples: seq<nat>, t: seq<nat>, lo: nat, hi: nat)
    requires |samples| >= 2 && |t| == |samples| && multiset(t) == multiset(samples)
    requires t[0] == lo && t[|samples| - 1] == hi
    ensures multiset(Window(t)) + multiset{lo, hi} == multiset(samples)
  {
    var w := Window(t);
    assert t == [lo] + w + [hi];
    assert multiset(t) == multiset{lo} + multiset(w) + multiset{hi};
  }

  /** The total of a sequence is its window's sum plus its two end slots. */
  lemma WindowSum(t: seq<nat>)
    requires |t| >= 2
    ensures Sum(Window(t)) + t[0] + t[|t| - 1] == Sum(t)
  {
    var u := t[1..];
    SumFront(t);
    assert u[..|u| - 1] == Window(t);
    assert Sum(u) == Sum(u[..|u| - 1]) + u[|u| - 1];
  }

  /** A duplicated minimum still contributes to the sum. */
  lemma DuplicateMinimumKept(samples: seq<nat>)
    requires |samples| >= 3
    requires multiset(samples)[MinOf(samples)] >= 2
    ensures MinOf(samples) in Window(SortSeq(samples))
  {
    TrimDropsOneMinAndOneMax(samples);
    var m := MinOf(samples);
    var w := Window(SortSeq(samples));
    if m == MaxOf(samples) {
      // every sample equals m: at least one copy survives in a window of length >= 1
      assert multiset(w)[m] == multiset(samples)[m] - 2;
      assert |multiset(w)| == |multiset(samples)| - 2;
      assert multiset(samples)[m] == |samples| by {
        SameValueCount(samples, m);
      }
    } else {
      assert multiset(w)[m] == multiset(samples)[m] - 1;
    }
    assert m in multiset(w);
  }

  /** When the minimum equals the maximum, every sample has that value. */
  lemma SameValueCount(samples: seq<nat>, m: nat)
    requires |samples| > 0 && m == MinOf(samples) == MaxOf(samples)
    ensures multiset(samples)[m] == |samples|
  {
    assert forall k :: 0 <= k < |samples| ==> samples[k] == m;
    assert samples == seq(|samples|, k => m);
    ConstantCount(|samples|, m);
  }

  lemma {:induction false} ConstantCount(n: nat, m: nat)
    ensures multiset(seq(n, k => m))[m] == n
  {
    if n > 0 {
      ConstantCount(n - 1, m);
      assert seq(n, k => m) == seq(n - 1, k => m) + [m];
    }
  }

  /** If all 120 samples are v, the reading is v. */
  lemma SaltReadingConstant(samples: seq<nat>, v: nat)
    requires |samples| >= 3
    requires forall k :: 0 <= k < |samples| ==> samples[k] == v
    ensures SaltReading(samples) == v
  {
    var t := SortSeq(samples);
    forall k | 0 <= k < |t|
      ensures t[k] == v
    {
      assert t[k] in multiset(samples);
    }
    SumConstant(Window(t), v);
    DivBetween(Sum(Window(t)), |Window(t)|, v, v);
  }

  lemma {:induction false} SumCounting(k: nat)
    ensures Sum(seq(k, i => i + 1)) == k * (k + 1) / 2
  {
    if k > 0 {
      SumCounting(k - 1);
      assert seq(k, i => i + 1)[..k - 1] == seq(k - 1, i => i + 1);
    }
  }

  /** The samples 0, 1, ..., 119 give (1 + ... + 118) / 118 = 7021 / 118 = 59. */
  lemma SaltReadingCounting()
    ensures SaltReading(seq(Samples, i => i)) == 59
  {
    var s: seq<nat> := seq(Samples, i => i);
    SortedPermutationIsSortSeq(s, s);
    assert Window(s) == seq(Samples - 2, i => i + 1);
    SumCounting(Samples - 2);
  }
}
