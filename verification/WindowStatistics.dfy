/** What the quartiles, the median and the gate of the clock offset mean, by
    counting samples rather than by position in a sorted copy
    (rpd_tracer/Firefly.cpp:56-72, :95-110 and :262-284). */
module WindowStatistics {
  import opened Sequences
  import opened Sorting
  import opened MeasurementWindow
  import opened DriftRegression

  /** How many of the numbers are x or less. */
  function UpTo(o: seq<int>, x: int): nat {
    if o == [] then 0 else (if o[0] <= x then 1 else 0) + UpTo(o[1..], x)
  }

  /** At most k of them are smaller than x, and more than k are x or less. */
  predicate HasRank(o: seq<int>, k: nat, x: int) {
    UpTo(o, x - 1) <= k < UpTo(o, x)
  }

  lemma {:induction false} UpToConcat(a: seq<int>, b: seq<int>, x: int)
    ensures UpTo(a + b, x) == UpTo(a, x) + UpTo(b, x)
  {
    if a == [] {
      assert a + b == b;
    } else {
      assert (a + b)[1..] == a[1..] + b;
      UpToConcat(a[1..], b, x);
    }
  }

  lemma UpToWithout(o: seq<int>, i: nat, x: int)
    requires i < |o|
    ensures UpTo(o, x) == (if o[i] <= x then 1 else 0) + UpTo(Without(o, i), x)
  {
    assert o == o[..i] + o[i..];
    UpToConcat(o[..i], o[i..], x);
    UpToConcat(o[..i], o[i + 1..], x);
  }

  lemma {:induction false} UpToPermutes(a: seq<int>, b: seq<int>, x: int)
    requires multiset(a) == multiset(b)
    ensures UpTo(a, x) == UpTo(b, x)
  {
    if a == [] {
      assert |multiset(b)| == 0;
    } else {
      hide UpTo;
      assert a[0] in multiset(b);
      var i :| 0 <= i < |b| && b[i] == a[0];
      BagWithout(a, 0);
      BagWithout(b, i);
      UpToPermutes(Without(a, 0), Without(b, i), x);
      UpToWithout(a, 0, x);
      UpToWithout(b, i, x);
    }
  }

  ghost predicate Ascends(o: seq<int>) {
    forall i, j :: 0 <= i <= j < |o| ==> o[i] <= o[j]
  }

  lemma {:induction false} UpToNone(o: seq<int>, x: int)
    requires forall i :: 0 <= i < |o| ==> o[i] > x
    ensures UpTo(o, x) == 0
  {
    if o != [] {
      UpToNone(o[1..], x);
    }
  }

  /** In ascending order, entry k is x or less if and only if more than k are. */
  lemma {:induction false} UpToSorted(o: seq<int>, k: nat, x: int)
    requires Ascends(o) && k < |o|
    ensures o[k] <= x <==> UpTo(o, x) > k
  {
    assert Ascends(o[1..]);
    if o[0] > x {
      UpToNone(o, x);
    } else if k > 0 {
      UpToSorted(o[1..], k - 1, x);
    }
  }

  /** Entry k of a sorted copy is the one number of that rank. */
  lemma SortedHasRank(o: seq<int>, sorted: seq<int>, k: nat, x: int)
    requires multiset(sorted) == multiset(o) && Ascends(sorted) && k < |sorted|
    ensures HasRank(o, k, x) <==> sorted[k] == x
  {
    UpToPermutes(o, sorted, x);
    UpToPermutes(o, sorted, x - 1);
    UpToSorted(sorted, k, x);
    UpToSorted(sorted, k, x - 1);
  }

  lemma OffsetRank(samples: seq<Measurement>, k: nat, x: int)
    requires k < |samples|
    ensures HasRank(Offsets(samples), k, x) <==> SortedOffsets(samples)[k] == x
  {
    SortedHasRank(Offsets(samples), SortedOffsets(samples), k, x);
  }

  /** The fence stands on the quartiles: of n samples at most n / 4 are below the
      first and more than n / 4 not above it, and likewise at 3 n / 4. */
  lemma FenceIsQuartiles(samples: seq<Measurement>, q1: int, q3: int)
    requires samples != []
    ensures FenceOf(samples) == Fence(q1, q3)
            <==> HasRank(Offsets(samples), |samples| / 4, q1) && HasRank(Offsets(samples), 3 * |samples| / 4, q3)
  {
    OffsetRank(samples, |samples| / 4, q1);
    OffsetRank(samples, 3 * |samples| / 4, q3);
  }

  /** The gate, both ways: past ten measurements, an offset is turned away if and
      only if it lies more than three interquartile ranges outside the quartiles
      of what is retained. */
  lemma RejectedIffFarOut(kept: seq<Measurement>, count: nat, offset: int, q1: int, q3: int)
    requires kept != [] ==> HasRank(Offsets(kept), |kept| / 4, q1) && HasRank(Offsets(kept), 3 * |kept| / 4, q3)
    ensures !Passes(kept, count, offset)
            <==> count > 10 && kept != [] && (offset < q1 - 3 * (q3 - q1) || q3 + 3 * (q3 - q1) < offset)
  {
    if kept != [] {
      FenceIsQuartiles(kept, q1, q3);
    }
  }

  ghost predicate Simultaneous(samples: seq<Measurement>) {
    forall i, j :: 0 <= i < j < |samples| ==> samples[i].timestamp == samples[j].timestamp
  }

  /** The average, cut toward zero. */
  predicate IsMean(x: int, sum: int, n: nat) {
    if sum >= 0 then n * x <= sum < n * (x + 1) else n * (x - 1) < sum <= n * x
  }

  lemma MeanIsCut(sum: int, n: nat)
    requires n > 0
    ensures IsMean(TruncatedMean(sum, n), sum, n)
  {
  }

  /** The reported offset of two samples or more is the median of the retained
      ones, the upper of two, or their mean when all were taken at one time. */
  lemma OffsetIsMedian(found: seq<Measurement>, windowSize: nat, a: Analysis)
    requires |found| >= 2 && windowSize >= 2 && IsAnalysis(found, windowSize, a)
    ensures |a.samples| >= 2
    ensures !Simultaneous(a.samples) ==> HasRank(Offsets(a.samples), |a.samples| / 2, a.averageOffset)
    ensures Simultaneous(a.samples) ==> IsMean(a.averageOffset, SumOffset(a.samples), |a.samples|)
  {
    FilterLeavesTwo(found, windowSize, a);
    ZeroIffSimultaneous(a.samples, a.samples[0].timestamp);
    OffsetRank(a.samples, |a.samples| / 2, a.averageOffset);
    MeanIsCut(SumOffset(a.samples), |a.samples|);
  }
}
