/** The ring of clock measurements, the quartile filter over its latest samples
    and the gate in front of the controller (rpd_tracer/Firefly.cpp:13-112,
    :195-200 and :244-282). */
module MeasurementWindow {
  import opened Division
  import opened Sequences
  import opened Sorting

  /** node is the role that took the sample, 'A' or 'B'. */
  datatype Measurement = Measurement(timestamp: int, offset: int, node: char)

  const MEDIAN_WINDOW_SIZE: nat := 10

  // ---- the ring --------------------------------------------------------

  function Available(count: nat, capacity: nat): nat {
    if count < capacity then count else capacity
  }

  /** The slots (start + i) % capacity of the walk, oldest first. */
  function Walk(ring: seq<Measurement>, count: nat): (w: seq<Measurement>)
    requires ring != []
    ensures |w| == Available(count, |ring|)
  {
    var n := Available(count, |ring|);
    seq(n, i requires 0 <= i < n => ring[(count - n + i) % |ring|])
  }

  /** The walk is a rotation of the slots in use: each is read exactly once. */
  lemma WalkReadsEachOnce(ring: seq<Measurement>, count: nat)
    requires ring != []
    ensures multiset(Walk(ring, count)) == multiset(ring[..Available(count, |ring|)])
  {
    hide Walk;
    var cap := |ring|;
    if count < cap {
      WalkStarts(ring, count);
    } else {
      WalkRotates(ring, count);
      Rotation(ring, (count - cap) % cap);
      assert ring[..cap] == ring;
    }
  }

  lemma Rotation<T>(s: seq<T>, r: nat)
    requires r <= |s|
    ensures multiset(s[r..] + s[..r]) == multiset(s)
  {
    assert s == s[..r] + s[r..];
  }

  lemma WalkStarts(ring: seq<Measurement>, count: nat)
    requires count < |ring|
    ensures Walk(ring, count) == ring[..count]
  {
  }

  lemma WalkRotates(ring: seq<Measurement>, count: nat)
    requires ring != [] && count >= |ring|
    ensures var r := (count - |ring|) % |ring|; Walk(ring, count) == ring[r..] + ring[..r]
  {
    var cap := |ring|;
    var start := count - cap;
    var r := start % cap;
    forall i | 0 <= i < cap ensures Walk(ring, count)[i] == (ring[r..] + ring[..r])[i] {
      Wraps(cap, start, i);
    }
  }

  lemma Wraps(n: nat, start: nat, i: nat)
    requires i < n
    ensures (start + i) % n == if start % n + i < n then start % n + i else start % n + i - n
  {
    var r, q := start % n, start / n;
    assert start == n * q + r;
    if r + i < n {
      DivModOf(n, q, r + i);
    } else {
      assert n * q + n == n * (q + 1);
      DivModOf(n, q + 1, r + i - n);
    }
  }

  class MeasurementBuffer {
    const measurements: array<Measurement>
    var count: nat
    ghost var history: seq<Measurement>

    /** Slot i % capacity holds the i-th measurement until it is reused. */
    ghost predicate Valid()
      reads this, measurements
    {
      && measurements.Length > 0 && count == |history|
      && forall i :: count - measurements.Length <= i < count && i >= 0
                     ==> measurements[i % measurements.Length] == history[i]
    }

    constructor (capacity: nat)
      requires capacity > 0
      ensures Valid() && measurements.Length == capacity && history == [] && fresh(measurements)
    {
      measurements := new Measurement[capacity](_ => Measurement(0, 0, 'A'));
      count, history := 0, [];
    }

    method Record(m: Measurement)
      requires Valid()
      modifies this, measurements
      ensures Valid() && history == old(history) + [m]
    {
      var idx := count % measurements.Length;
      measurements[idx] := m;
      forall i | count + 1 - measurements.Length <= i < count && i >= 0
        ensures i % measurements.Length != count % measurements.Length
      {
        SlotsDiffer(measurements.Length, i, count);
      }
      count := count + 1;
      history := history + [m];
    }

    /** The copy firefly_run() takes: the latest measurements in the order they
        were recorded. */
    method Window() returns (window: seq<Measurement>)
      requires Valid()
      ensures window == history[|history| - Available(count, measurements.Length)..]
    {
      var capacity := measurements.Length;
      var available := if count < capacity then count else capacity;
      window := [];
      for i := 0 to available
        invariant |window| == i
        invariant forall j :: 0 <= j < i ==> window[j] == history[count - available + j]
      {
        window := window + [measurements[(count - available + i) % capacity]];
      }
    }
  }

  // ---- samples in order ------------------------------------------------

  function Offsets(samples: seq<Measurement>): (o: seq<int>)
    ensures |o| == |samples| && forall i :: 0 <= i < |o| ==> o[i] == samples[i].offset
  {
    seq(|samples|, i requires 0 <= i < |samples| => samples[i].offset)
  }

  function SortedOffsets(samples: seq<Measurement>): (o: seq<int>)
    ensures |o| == |samples| && multiset(o) == multiset(Offsets(samples))
    ensures forall i, j :: 0 <= i <= j < |o| ==> o[i] <= o[j]
  {
    SortAscends(Offsets(samples));
    Sort(Offsets(samples), Itself)
  }

  lemma SortAscends(o: seq<int>)
    ensures var s := Sort(o, Itself);
            |s| == |o| && multiset(s) == multiset(o) && forall i, j :: 0 <= i <= j < |s| ==> s[i] <= s[j]
  {
    hide Sort;
    SortSorts(o, Itself);
    SortedAscends(Sort(o, Itself));
  }

  lemma SortedAscends(s: seq<int>)
    requires SortedBy(s, Itself)
    ensures forall i, j :: 0 <= i <= j < |s| ==> s[i] <= s[j]
  {
    assert forall x :: Itself(x) == x;
  }

  function Itself(x: int): int {
    x
  }

  function TimeOf(m: Measurement): int {
    m.timestamp
  }

  // ---- the quartile fence ----------------------------------------------

  datatype Fence = Fence(q1: int, q3: int) {
    function Lo(): int { q1 - 3 * (q3 - q1) }
    function Hi(): int { q3 + 3 * (q3 - q1) }
    predicate Keeps(x: int) { Lo() <= x <= Hi() }
  }

  function FenceOf(samples: seq<Measurement>): Fence
    requires samples != []
  {
    var o, n := SortedOffsets(samples), |samples|;
    Fence(o[n / 4], o[3 * n / 4])
  }

  function Filter(samples: seq<Measurement>, f: Fence): seq<Measurement> {
    if samples == [] then []
    else (if f.Keeps(samples[0].offset) then [samples[0]] else []) + Filter(samples[1..], f)
  }

  function CountKept(o: seq<int>, f: Fence): nat {
    if o == [] then 0 else (if f.Keeps(o[0]) then 1 else 0) + CountKept(o[1..], f)
  }

  lemma {:induction false} CountConcat(a: seq<int>, b: seq<int>, f: Fence)
    ensures CountKept(a + b, f) == CountKept(a, f) + CountKept(b, f)
  {
    if a == [] {
      assert a + b == b;
    } else {
      assert (a + b)[1..] == a[1..] + b;
      CountConcat(a[1..], b, f);
    }
  }

  lemma {:induction false} CountPermutes(a: seq<int>, b: seq<int>, f: Fence)
    requires multiset(a) == multiset(b)
    ensures CountKept(a, f) == CountKept(b, f)
  {
    hide Without;
    if a == [] {
      assert |multiset(b)| == 0;
    } else {
      assert a[0] in multiset(b);
      var i :| 0 <= i < |b| && b[i] == a[0];
      BagWithout(a, 0);
      BagWithout(b, i);
      WithoutFirst(a);
      CountPermutes(a[1..], Without(b, i), f);
      CountWithout(b, i, f);
    }
  }

  lemma WithoutFirst(o: seq<int>)
    requires o != []
    ensures Without(o, 0) == o[1..]
  {
  }

  lemma CountWithout(o: seq<int>, i: nat, f: Fence)
    requires i < |o|
    ensures CountKept(o, f) == CountKept(Without(o, i), f) + if f.Keeps(o[i]) then 1 else 0
  {
    assert o == o[..i] + ([o[i]] + o[i + 1..]);
    CountConcat(o[..i], [o[i]] + o[i + 1..], f);
    CountConcat(o[..i], o[i + 1..], f);
    assert ([o[i]] + o[i + 1..])[1..] == o[i + 1..];
  }

  lemma {:induction false} CountAll(o: seq<int>, f: Fence)
    requires forall i :: 0 <= i < |o| ==> f.Keeps(o[i])
    ensures CountKept(o, f) == |o|
  {
    if o != [] {
      CountAll(o[1..], f);
    }
  }

  lemma {:induction false} FilterCounts(samples: seq<Measurement>, f: Fence)
    ensures |Filter(samples, f)| == CountKept(Offsets(samples), f)
    ensures forall m :: m in Filter(samples, f) <==> m in samples && f.Keeps(m.offset)
  {
    if samples != [] {
      FilterCounts(samples[1..], f);
      assert Offsets(samples)[1..] == Offsets(samples[1..]);
      assert samples == [samples[0]] + samples[1..];
    }
  }

  /** The fence keeps at least the middle half, hence two samples or more. */
  lemma FenceKeepsMiddle(samples: seq<Measurement>)
    requires |samples| >= 2
    ensures var n := |samples|;
            |Filter(samples, FenceOf(samples))| >= 3 * n / 4 - n / 4 + 1 >= 2
  {
    var o, n, f := SortedOffsets(samples), |samples|, FenceOf(samples);
    CountMiddle(o, n / 4, 3 * n / 4 + 1, f);
    CountPermutes(Offsets(samples), o, f);
    FilterCounts(samples, f);
  }

  lemma CountMiddle(o: seq<int>, a: nat, b: nat, f: Fence)
    requires a < b <= |o| && (forall i, j :: 0 <= i <= j < |o| ==> o[i] <= o[j])
    requires f == Fence(o[a], o[b - 1])
    ensures CountKept(o, f) >= b - a
  {
    CountAll(o[a..b], f);
    assert o == o[..a] + (o[a..b] + o[b..]);
    CountConcat(o[..a], o[a..b] + o[b..], f);
    CountConcat(o[a..b], o[b..], f);
  }

  // ---- the analysis ----------------------------------------------------

  datatype Analysis = Analysis(samples: seq<Measurement>, averageOffset: int, driftRate: real)

  function OfRole(samples: seq<Measurement>, role: char): seq<Measurement> {
    if samples == [] then []
    else (if samples[0].node == role then [samples[0]] else []) + OfRole(samples[1..], role)
  }

  function Latest(samples: seq<Measurement>, windowSize: nat): seq<Measurement> {
    if |samples| > windowSize then samples[|samples| - windowSize..] else samples
  }

  function SumOffset(samples: seq<Measurement>): int {
    if samples == [] then 0 else samples[0].offset + SumOffset(samples[1..])
  }

  function SumTime(samples: seq<Measurement>, reference: int): int {
    if samples == [] then 0 else samples[0].timestamp - reference + SumTime(samples[1..], reference)
  }

  function SumTimeSquared(samples: seq<Measurement>, reference: int): int {
    if samples == [] then 0
    else
      var d := samples[0].timestamp - reference;
      d * d + SumTimeSquared(samples[1..], reference)
  }

  function SumProduct(samples: seq<Measurement>, reference: int): int {
    if samples == [] then 0
    else (samples[0].timestamp - reference) * samples[0].offset + SumProduct(samples[1..], reference)
  }

  function Denominator(samples: seq<Measurement>, reference: int): int {
    |samples| * SumTimeSquared(samples, reference) - SumTime(samples, reference) * SumTime(samples, reference)
  }

  /** The slope of the regression line; 0 when all timestamps coincide. */
  function Slope(samples: seq<Measurement>): real
    requires samples != []
  {
    var reference := samples[0].timestamp;
    var d := Denominator(samples, reference);
    if d == 0 then 0.0
    else
      var numerator := |samples| * SumProduct(samples, reference)
                       - SumTime(samples, reference) * SumOffset(samples);
      Ratio(numerator, d)
  }

  function Ratio(a: int, b: int): real
    requires b != 0
  {
    a as real / b as real
  }

  /** sumY / sampleCount converted to an integer. */
  function TruncatedMean(sum: int, n: nat): int
    requires n > 0
  {
    if sum >= 0 then sum / n else -((-sum) / n)
  }

  /** The offset of the retained samples: their median, or their mean when all
      timestamps coincide. */
  function Representative(samples: seq<Measurement>): int
    requires samples != []
  {
    var n := |samples|;
    if Denominator(samples, samples[0].timestamp) == 0 then TruncatedMean(SumOffset(samples), n)
    else SortedOffsets(samples)[n / 2]
  }

  /** read_latest_measurements() on the samples of a role in order of time. */
  function Analyse(sorted: seq<Measurement>, windowSize: nat): Analysis {
    if sorted == [] then Analysis([], 0, 0.0)
    else
      var samples := Latest(sorted, windowSize);
      if |samples| < 2 then Analysis(samples, if samples == [] then 0 else samples[0].offset, 0.0)
      else
        var kept := Filter(samples, FenceOf(samples));
        if |kept| < 2 then Analysis(kept, if kept == [] then 0 else kept[0].offset, 0.0)
        else Analysis(kept, Representative(kept), Slope(kept))
  }

  /** An order std::sort may give: it is not stable, so equal times come as they
      like. */
  ghost predicate IsSortOf(found: seq<Measurement>, sorted: seq<Measurement>) {
    multiset(sorted) == multiset(found) && SortedBy(sorted, TimeOf)
  }

  ghost predicate IsAnalysis(found: seq<Measurement>, windowSize: nat, a: Analysis) {
    exists sorted :: IsSortOf(found, sorted) && a == Analyse(sorted, windowSize)
  }

  /** The window is the latest windowSize samples: nothing left out is newer than
      anything in it. */
  lemma WindowIsLatest(found: seq<Measurement>, sorted: seq<Measurement>, windowSize: nat)
    requires IsSortOf(found, sorted)
    ensures var window := Latest(sorted, windowSize);
            var older := sorted[..|sorted| - |window|];
            && multiset(older) + multiset(window) == multiset(found)
            && |window| == (if |found| < windowSize then |found| else windowSize)
            && (forall i, j :: 0 <= i < |older| && 0 <= j < |window| ==> older[i].timestamp <= window[j].timestamp)
  {
    var n := |sorted| - |Latest(sorted, windowSize)|;
    assert sorted == sorted[..n] + sorted[n..];
    assert |multiset(sorted)| == |sorted| && |multiset(found)| == |found|;
    forall i, j | 0 <= i < n && n <= j < |sorted| ensures sorted[i].timestamp <= sorted[j].timestamp {
      assert TimeOf(sorted[i]) <= TimeOf(sorted[j]);
    }
  }

  /** What is retained is what lies within the fence of that window. */
  lemma RetainedAreWithinFence(sorted: seq<Measurement>, windowSize: nat, m: Measurement)
    requires |sorted| >= 2 && windowSize >= 2
    ensures var window := Latest(sorted, windowSize);
            |window| >= 2
            && (m in Analyse(sorted, windowSize).samples <==> m in window && FenceOf(window).Keeps(m.offset))
  {
    var window := Latest(sorted, windowSize);
    FilterCounts(window, FenceOf(window));
    FenceKeepsMiddle(window);
  }

  // ---- the analysis in place -------------------------------------------

  lemma OfRoleNext(w: seq<Measurement>, i: nat, role: char)
    requires i < |w|
    ensures OfRole(w[i..], role) == (if w[i].node == role then [w[i]] else []) + OfRole(w[i + 1..], role)
  {
    assert w[i..][1..] == w[i + 1..];
  }

  method CollectRole(role: char, measurements: seq<Measurement>, count: nat) returns (samples: seq<Measurement>)
    requires measurements != []
    ensures samples == OfRole(Walk(measurements, count), role)
  {
    hide OfRole;
    ghost var w := Walk(measurements, count);
    var capacity := |measurements|;
    var available := if count < capacity then count else capacity;
    var start := count - available;
    samples := [];
    assert w[0..] == w && [] + OfRole(w, role) == OfRole(w, role);
    for i := 0 to available
      invariant samples + OfRole(w[i..], role) == OfRole(w, role)
    {
      OfRoleNext(w, i, role);
      var m := measurements[(start + i) % capacity];
      assert w[i] == m;
      if m.node == role {
        Regroup(samples, [m], OfRole(w[i + 1..], role));
        samples := samples + [m];
      } else {
        assert [] + OfRole(w[i + 1..], role) == OfRole(w[i + 1..], role);
      }
    }
    NoneOfRole(w[available..], role);
    assert samples + [] == samples;
  }

  lemma NoneOfRole(w: seq<Measurement>, role: char)
    requires w == []
    ensures OfRole(w, role) == []
  {
  }

  lemma SumsNext(samples: seq<Measurement>, i: nat, reference: int)
    requires i < |samples|
    ensures var m, rest := samples[i], samples[i + 1..];
            && SumOffset(samples[i..]) == m.offset + SumOffset(rest)
            && SumTime(samples[i..], reference) == m.timestamp - reference + SumTime(rest, reference)
            && SumTimeSquared(samples[i..], reference)
               == (m.timestamp - reference) * (m.timestamp - reference) + SumTimeSquared(rest, reference)
            && SumProduct(samples[i..], reference)
               == (m.timestamp - reference) * m.offset + SumProduct(rest, reference)
  {
    assert samples[i..][1..] == samples[i + 1..];
  }

  method Sums(samples: seq<Measurement>, reference: int) returns (sumX: int, sumY: int, sumXY: int, sumX2: int)
    ensures sumX == SumTime(samples, reference) && sumY == SumOffset(samples)
    ensures sumX2 == SumTimeSquared(samples, reference) && sumXY == SumProduct(samples, reference)
  {
    sumX, sumY, sumXY, sumX2 := 0, 0, 0, 0;
    assert samples[0..] == samples;
    for i := 0 to |samples|
      invariant sumX + SumTime(samples[i..], reference) == SumTime(samples, reference)
      invariant sumY + SumOffset(samples[i..]) == SumOffset(samples)
      invariant sumX2 + SumTimeSquared(samples[i..], reference) == SumTimeSquared(samples, reference)
      invariant sumXY + SumProduct(samples[i..], reference) == SumProduct(samples, reference)
    {
      SumsNext(samples, i, reference);
      var timeDelta, offsetValue := samples[i].timestamp - reference, samples[i].offset;
      sumX, sumY := sumX + timeDelta, sumY + offsetValue;
      sumXY, sumX2 := sumXY + timeDelta * offsetValue, sumX2 + timeDelta * timeDelta;
    }
  }

  /** std::sort, with one of the orders it may give. */
  method SortByTime(found: seq<Measurement>) returns (sorted: seq<Measurement>)
    ensures IsSortOf(found, sorted)
  {
    SortSorts(found, TimeOf);
    sorted := Sort(found, TimeOf);
  }

  lemma NoSamples(windowSize: nat)
    ensures IsAnalysis([], windowSize, Analysis([], 0, 0.0))
  {
    assert IsSortOf([], []);
  }

  lemma SameSize(found: seq<Measurement>, sorted: seq<Measurement>)
    requires IsSortOf(found, sorted)
    ensures |sorted| == |found|
  {
    assert |multiset(sorted)| == |sorted| && |multiset(found)| == |found|;
  }

  method ReadLatestMeasurements(role: char, windowSize: nat, measurements: seq<Measurement>, count: nat)
    returns (analysis: Analysis)
    requires measurements != []
    ensures IsAnalysis(OfRole(Walk(measurements, count), role), windowSize, analysis)
  {
    hide IsSortOf, Filter, Ratio, SumTime, SumOffset, SumTimeSquared, SumProduct, OfRole, Walk, SortedOffsets, FenceOf;
    var samples := CollectRole(role, measurements, count);
    ghost var found := samples;
    if samples == [] {
      NoSamples(windowSize);
      return Analysis([], 0, 0.0);
    }
    samples := SortByTime(samples);
    ghost var sorted := samples;
    SameSize(found, sorted);
    assert forall a :: a == Analyse(sorted, windowSize) ==> IsAnalysis(found, windowSize, a);
    if |samples| > windowSize {
      samples := samples[|samples| - windowSize..];
    }
    if |samples| < 2 {
      return Analysis(samples, if samples == [] then 0 else samples[0].offset, 0.0);
    }
    samples := Filter(samples, FenceOf(samples));
    if |samples| < 2 {
      return Analysis(samples, if samples == [] then 0 else samples[0].offset, 0.0);
    }
    var sumX, sumY, sumXY, sumX2 := Sums(samples, samples[0].timestamp);
    var n := |samples|;
    var denominator := n * sumX2 - sumX * sumX;
    if denominator == 0 {
      return Analysis(samples, TruncatedMean(sumY, n), 0.0);
    }
    var slope := Ratio(n * sumXY - sumX * sumY, denominator);
    analysis := Analysis(samples, SortedOffsets(samples)[n / 2], slope);
  }

  lemma AnalysisExists(found: seq<Measurement>, windowSize: nat)
    ensures exists a :: IsAnalysis(found, windowSize, a)
  {
    SortSorts(found, TimeOf);
    assert IsSortOf(found, Sort(found, TimeOf));
    assert IsAnalysis(found, windowSize, Analyse(Sort(found, TimeOf), windowSize));
  }

  /** The early return after filtering is never taken. */
  lemma FilterLeavesTwo(found: seq<Measurement>, windowSize: nat, a: Analysis)
    requires |found| >= 2 && windowSize >= 2 && IsAnalysis(found, windowSize, a)
    ensures |a.samples| >= 2 && a.averageOffset == Representative(a.samples) && a.driftRate == Slope(a.samples)
  {
    var sorted :| IsSortOf(found, sorted) && a == Analyse(sorted, windowSize);
    SameSize(found, sorted);
    FenceKeepsMiddle(Latest(sorted, windowSize));
  }

  lemma {:induction false} SumBetween(samples: seq<Measurement>, lo: int, hi: int)
    requires forall m :: m in samples ==> lo <= m.offset <= hi
    ensures |samples| * lo <= SumOffset(samples) <= |samples| * hi
  {
    if samples != [] {
      var n := |samples| - 1;
      assert samples[0] in samples && forall m :: m in samples[1..] ==> m in samples;
      SumBetween(samples[1..], lo, hi);
      AddBetween(n, SumOffset(samples[1..]), samples[0].offset, lo, hi);
    }
  }

  lemma AddBetween(n: nat, sum: int, x: int, lo: int, hi: int)
    requires n * lo <= sum <= n * hi && lo <= x <= hi
    ensures (n + 1) * lo <= x + sum <= (n + 1) * hi
  {
  }

  lemma MeanBetween(sum: int, n: nat, lo: int, hi: int)
    requires n > 0 && n * lo <= sum <= n * hi
    ensures lo <= TruncatedMean(sum, n) <= hi
  {
    if sum >= 0 {
      DivBetween(sum, n, lo, hi);
    } else {
      assert n * (-hi) == -(n * hi) && n * (-lo) == -(n * lo);
      DivBetween(-sum, n, -hi, -lo);
    }
  }

  /** The reported offset lies between the least and the greatest retained. */
  lemma OffsetWithinSamples(found: seq<Measurement>, windowSize: nat, a: Analysis, lo: int, hi: int)
    requires windowSize > 0 && found != [] && IsAnalysis(found, windowSize, a)
    requires forall m :: m in a.samples ==> lo <= m.offset <= hi
    ensures a.samples != [] && lo <= a.averageOffset <= hi
  {
    var sorted :| IsSortOf(found, sorted) && a == Analyse(sorted, windowSize);
    SameSize(found, sorted);
    hide IsSortOf, IsAnalysis;
    var samples := Latest(sorted, windowSize);
    if |samples| >= 2 {
      FenceKeepsMiddle(samples);
      SumBetween(a.samples, lo, hi);
      MeanBetween(SumOffset(a.samples), |a.samples|, lo, hi);
      MedianBetween(a.samples, |a.samples| / 2, lo, hi);
    }
  }

  lemma MedianBetween(samples: seq<Measurement>, k: nat, lo: int, hi: int)
    requires k < |samples| && forall m :: m in samples ==> lo <= m.offset <= hi
    ensures lo <= SortedOffsets(samples)[k] <= hi
  {
    var o := SortedOffsets(samples);
    assert o[k] in multiset(o) && o[k] in multiset(Offsets(samples));
    var i :| 0 <= i < |samples| && Offsets(samples)[i] == o[k];
    assert samples[i] in samples;
  }

  /** The gate: past the first ten measurements an offset must lie within the
      fence of the retained samples. */
  predicate Passes(kept: seq<Measurement>, count: nat, offset: int) {
    count > MEDIAN_WINDOW_SIZE && kept != [] ==> FenceOf(kept).Keeps(offset)
  }

  /** What the gate may say of the latest measurement of a window. */
  ghost predicate GateSays(role: char, window: seq<Measurement>, count: nat, accepted: bool)
    requires window != []
  {
    exists a :: IsAnalysis(OfRole(Walk(window, count), role), MEDIAN_WINDOW_SIZE, a)
                && accepted == Passes(a.samples, count, window[|window| - 1].offset)
  }

  /** An offset between the quartiles of the retained samples is never turned
      away. */
  lemma MiddleIsAccepted(kept: seq<Measurement>, count: nat, offset: int)
    requires kept != [] ==> FenceOf(kept).q1 <= offset <= FenceOf(kept).q3
    ensures Passes(kept, count, offset)
  {
  }
}
