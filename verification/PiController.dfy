/** The PI controller that tracks the clock offset
    (rpd_tracer/Firefly.cpp:226-309, rpd_tracer/Firefly.h:37-44).  Gains and
    state are exact reals; the published offset is cut to an integer as in the
    code. */
module PiController {
  import opened MeasurementWindow

  const KP: real := 0.1
  const KI: real := 0.02
  const DT_NS: real := 100000000.0     // FIRE_FLY_SLEEP_MSEC * 1e6
  const MAX_FREQUENCY: real := 0.0005  // 500 ppm

  /** s_pid together with the offset it has published. */
  datatype Controller = Controller(frequency: real, initialized: bool, offset: int)

  const RESET := Controller(0.0, false, 0)

  function Clamp(f: real): real {
    if f > MAX_FREQUENCY then MAX_FREQUENCY
    else if f < -MAX_FREQUENCY then -MAX_FREQUENCY
    else f
  }

  /** A conversion from double to int64 drops the fraction. */
  function Truncate(x: real): int {
    if x >= 0.0 then x.Floor else -((-x).Floor)
  }

  function Unclamped(f: real, error: real): real {
    f + KI * error / DT_NS
  }

  function Corrected(offset: real, error: real, f: real): real {
    offset + KP * error + f * DT_NS
  }

  /** firefly_run() past the outlier gate. */
  function Update(c: Controller, measured: int): Controller {
    if !c.initialized then c.(initialized := true, offset := measured)
    else
      var error := measured as real - c.offset as real;
      var f := Clamp(Unclamped(c.frequency, error));
      Controller(f, true, Truncate(Corrected(c.offset as real, error, f)))
  }

  class Firefly {
    var frequency: real
    var initialized: bool
    var offset: int

    function View(): Controller
      reads this
    {
      Controller(frequency, initialized, offset)
    }

    constructor ()
      ensures View() == RESET
    {
      frequency, initialized, offset := 0.0, false, 0;
    }

    /** firefly_run(): nothing without a measurement or for an outlier. */
    method Run(role: char, buffer: MeasurementBuffer)
      requires buffer.Valid()
      modifies this
      ensures var h := buffer.history;
              var window := h[|h| - Available(|h|, buffer.measurements.Length)..];
              if h == [] then View() == old(View())
              else
                || (GateSays(role, window, |h|, true) && View() == Update(old(View()), h[|h| - 1].offset))
                || (GateSays(role, window, |h|, false) && View() == old(View()))
    {
      hide GateSays, Update;
      if buffer.count == 0 {
        return;
      }
      var window := buffer.Window();
      var measured := window[|window| - 1].offset;
      var accepted := Gate(role, window, buffer.count);
      if accepted {
        Correct(measured);
      }
    }

    /** Is the latest measurement within the fence of the retained ones? */
    method Gate(role: char, window: seq<Measurement>, count: nat) returns (accepted: bool)
      requires window != []
      ensures GateSays(role, window, count, accepted)
    {
      hide IsAnalysis, FenceOf, Walk, OfRole;
      var measured := window[|window| - 1].offset;
      AnalysisExists(OfRole(Walk(window, count), role), MEDIAN_WINDOW_SIZE);
      if count > MEDIAN_WINDOW_SIZE {
        var analysis := ReadLatestMeasurements(role, MEDIAN_WINDOW_SIZE, window, count);
        if analysis.samples != [] {
          var fence := FenceOf(analysis.samples);
          if measured < fence.Lo() || measured > fence.Hi() {
            return false;
          }
        }
      }
      return true;
    }

    /** The part past the gate. */
    method Correct(measured: int)
      modifies this
      ensures View() == Update(old(View()), measured)
    {
      if !initialized {
        offset := measured;
        initialized := true;
        return;
      }
      var error := measured as real - offset as real;
      frequency := frequency + KI * error / DT_NS;
      if frequency > MAX_FREQUENCY {
        frequency := MAX_FREQUENCY;
      }
      if frequency < -MAX_FREQUENCY {
        frequency := -MAX_FREQUENCY;
      }
      var newOffset := offset as real + KP * error + frequency * DT_NS;
      offset := Truncate(newOffset);
    }
  }

  function Updates(c: Controller, measured: seq<int>): Controller {
    if measured == [] then c
    else
      var n := |measured| - 1;
      Update(Updates(c, measured[..n]), measured[n])
  }

  /** Whatever is measured, the learned drift stays within 500 ppm. */
  lemma {:induction false} FrequencyBounded(measured: seq<int>)
    ensures -MAX_FREQUENCY <= Updates(RESET, measured).frequency <= MAX_FREQUENCY
  {
    if measured != [] {
      FrequencyBounded(measured[..|measured| - 1]);
    }
  }

  // ---- the energy ------------------------------------------------------

  /** e: measured minus published offset.  h: learned minus true drift per
      step, in ns. */
  function Energy(e: real, h: real): real {
    0.02 * e * e + 0.12 * e * h + h * h
  }

  function Power(b: real, n: nat): real {
    if n == 0 then 1.0 else b * Power(b, n - 1)
  }

  lemma EnergyBounds(e: real, h: real)
    ensures Energy(e, h) >= 0.0164 * (e * e)
    ensures Energy(e, h) >= 0.82 * (h * h)
    ensures Energy(e, h) >= 0.0
  {
    var a, b := h + 0.06 * e, e + 3.0 * h;
    assert a * a >= 0.0 && b * b >= 0.0 && e * e >= 0.0;
    assert a * a == h * h + 0.12 * e * h + 0.0036 * (e * e);
    assert b * b == e * e + 6.0 * (e * h) + 9.0 * (h * h);
  }

  /** One step without clamp or rounding takes exactly a tenth of the energy. */
  lemma Contracts(e: real, h: real)
    ensures Energy(0.88 * e - h, h + 0.02 * e) == 0.9 * Energy(e, h)
  {
    var x, y := 0.88 * e - h, h + 0.02 * e;
    assert x * x == 0.7744 * (e * e) - 1.76 * (e * h) + h * h;
    assert x * y == 0.0176 * (e * e) + 0.86 * (e * h) - h * h;
    assert y * y == h * h + 0.04 * (e * h) + 0.0004 * (e * e);
    assert Energy(x, y) == 0.02 * (x * x) + 0.12 * (x * y) + y * y;
    assert Energy(e, h) == 0.02 * (e * e) + 0.12 * (e * h) + h * h;
  }

  /** A disturbance w of the error costs at most this much. */
  lemma Disturbed(x: real, h: real, w: real)
    ensures Energy(x + w, h) <= 19.0 / 18.0 * Energy(x, h) + 0.38 * (w * w)
  {
    var z := x - 18.0 * w;
    EnergyBounds(z, h);
    assert z * z == x * x - 36.0 * (x * w) + 324.0 * (w * w);
    assert z * h == x * h - 18.0 * (w * h);
    assert (x + w) * (x + w) == x * x + 2.0 * (x * w) + w * w;
    assert (x + w) * h == x * h + w * h;
    assert Energy(z, h) == 0.02 * (z * z) + 0.12 * (z * h) + h * h;
    assert Energy(x, h) == 0.02 * (x * x) + 0.12 * (x * h) + h * h;
    assert Energy(x + w, h) == 0.02 * ((x + w) * (x + w)) + 0.12 * ((x + w) * h) + h * h;
  }

  lemma ProductPositive(a: real, b: real)
    requires a > 0.0 && b > 0.0
    ensures a * b > 0.0
  {
  }

  lemma SquareGrows(x: real, m: real)
    requires x > m >= 0.0
    ensures x * x > m * m
  {
    ProductPositive(x - m, x + m);
    assert (x - m) * (x + m) == x * x - m * m;
  }

  /** A bound on the square bounds the value. */
  lemma SquareBounds(x: real, m: real)
    requires m >= 0.0
    ensures x * x <= m * m <==> -m <= x <= m
  {
    if x > m {
      SquareGrows(x, m);
    } else if -x > m {
      SquareGrows(-x, m);
      assert (-x) * (-x) == x * x;
    } else if x >= 0.0 && x < m {
      SquareGrows(m, x);
    } else if x < 0.0 && -x < m {
      SquareGrows(m, -x);
      assert (-x) * (-x) == x * x;
    }
  }

  // ---- the exact loop --------------------------------------------------

  /** The loop on reals: published offset and learned drift after n updates,
      measuring a clock that gains `drift` ns per step. */
  function Exact(f: real, offset: real, clock: real, drift: real, n: nat): (real, real) {
    if n == 0 then (f, offset)
    else
      var (g, o) := Exact(f, offset, clock, drift, n - 1);
      var error := clock + (n - 1) as real * drift - o;
      var k := Clamp(Unclamped(g, error));
      (k, Corrected(o, error, k))
  }

  function ExactError(f: real, offset: real, clock: real, drift: real, n: nat): real {
    clock + n as real * drift - Exact(f, offset, clock, drift, n).1
  }

  function ExactLag(f: real, offset: real, clock: real, drift: real, n: nat): real {
    Exact(f, offset, clock, drift, n).0 * DT_NS - drift
  }

  function Abs(x: real): real {
    if x < 0.0 then -x else x
  }

  /** The start is close enough for the clamp never to act. */
  predicate Within(energy: real, drift: real) {
    Abs(drift) <= 50000.0 && energy <= 0.82 * ((50000.0 - Abs(drift)) * (50000.0 - Abs(drift)))
  }

  /** A lag of bounded energy keeps the learned drift inside the clamp. */
  lemma NoClamp(energy: real, e: real, h: real, drift: real, f: real)
    requires Within(energy, drift) && Energy(e, h) <= energy && f * DT_NS == h + drift
    ensures Clamp(f) == f
  {
    EnergyBounds(e, h);
    SquareBounds(h, 50000.0 - Abs(drift));
  }

  lemma PowerPositive(b: real, n: nat)
    requires 0.0 < b <= 1.0
    ensures 0.0 < Power(b, n) <= 1.0
  {
    if n > 0 {
      PowerPositive(b, n - 1);
      ProductPositive(b, Power(b, n - 1));
      if b < 1.0 {
        ProductPositive(1.0 - b, Power(b, n - 1));
      }
    }
  }

  lemma PowerShrinks(b: real, n: nat, v: real)
    requires 0.0 < b <= 1.0 && v >= 0.0
    ensures 0.0 <= Power(b, n) * v <= v
    ensures b * (Power(b, n) * v) == Power(b, n + 1) * v
    ensures Power(b, 0) * v == v
  {
    PowerPositive(b, n);
    if v > 0.0 {
      ProductPositive(Power(b, n), v);
      if Power(b, n) < 1.0 {
        ProductPositive(1.0 - Power(b, n), v);
      }
    }
  }

  function EnergyAt(f: real, offset: real, clock: real, drift: real, n: nat): real {
    Energy(ExactError(f, offset, clock, drift, n), ExactLag(f, offset, clock, drift, n))
  }

  /** The n-th update leaves the drift it learns unclamped. */
  predicate FreeAt(f: real, offset: real, clock: real, drift: real, n: nat) {
    var k := Unclamped(Exact(f, offset, clock, drift, n).0, ExactError(f, offset, clock, drift, n));
    Clamp(k) == k
  }

  lemma LearnedScales(f: real, error: real)
    ensures Unclamped(f, error) * DT_NS == f * DT_NS + 0.02 * error
  {
  }

  lemma FreeStep(f: real, offset: real, clock: real, drift: real, n: nat)
    requires FreeAt(f, offset, clock, drift, n)
    ensures EnergyAt(f, offset, clock, drift, n + 1) == 0.9 * EnergyAt(f, offset, clock, drift, n)
  {
    hide Energy, Clamp, Unclamped;
    var e, h := ExactError(f, offset, clock, drift, n), ExactLag(f, offset, clock, drift, n);
    LearnedScales(Exact(f, offset, clock, drift, n).0, e);
    assert (n + 1) as real * drift == n as real * drift + drift;
    assert ExactLag(f, offset, clock, drift, n + 1) == h + 0.02 * e;
    assert ExactError(f, offset, clock, drift, n + 1) == 0.88 * e - h;
    Contracts(e, h);
  }

  lemma SmallEnergyIsFree(f: real, offset: real, clock: real, drift: real, n: nat, energy: real)
    requires Within(energy, drift) && EnergyAt(f, offset, clock, drift, n) <= energy
    ensures FreeAt(f, offset, clock, drift, n)
  {
    hide Energy;
    var e, h := ExactError(f, offset, clock, drift, n), ExactLag(f, offset, clock, drift, n);
    Contracts(e, h);
    EnergyBounds(e, h);
    NoClamp(energy, 0.88 * e - h, h + 0.02 * e, drift, Unclamped(Exact(f, offset, clock, drift, n).0, e));
  }

  /** Geometric convergence: the clamp never acts and every update takes
      exactly a tenth of the energy, so the squared error falls below
      0.9^n V0 / 0.0164. */
  lemma {:induction false} ConvergesGeometrically(f: real, offset: real, clock: real, drift: real, n: nat)
    requires Within(EnergyAt(f, offset, clock, drift, 0), drift)
    ensures FreeAt(f, offset, clock, drift, n)
    ensures EnergyAt(f, offset, clock, drift, n) == Power(0.9, n) * EnergyAt(f, offset, clock, drift, 0)
    ensures 0.0164 * (ExactError(f, offset, clock, drift, n) * ExactError(f, offset, clock, drift, n))
            <= Power(0.9, n) * EnergyAt(f, offset, clock, drift, 0)
  {
    hide Energy, Power, Clamp, Exact, ExactError, ExactLag, FreeAt, Within;
    var v0 := EnergyAt(f, offset, clock, drift, 0);
    EnergyBounds(ExactError(f, offset, clock, drift, 0), ExactLag(f, offset, clock, drift, 0));
    if n > 0 {
      ConvergesGeometrically(f, offset, clock, drift, n - 1);
      FreeStep(f, offset, clock, drift, n - 1);
      PowerShrinks(0.9, n - 1, v0);
      assert n - 1 + 1 == n;
      assert EnergyAt(f, offset, clock, drift, n) == 0.9 * EnergyAt(f, offset, clock, drift, n - 1);
    }
    PowerShrinks(0.9, n, v0);
    assert EnergyAt(f, offset, clock, drift, n) == Power(0.9, n) * v0;
    SmallEnergyIsFree(f, offset, clock, drift, n, v0);
    EnergyBounds(ExactError(f, offset, clock, drift, n), ExactLag(f, offset, clock, drift, n));
  }

  // ---- the loop that publishes integers --------------------------------

  /** The cut goes toward zero. */
  lemma TruncateNear(x: real)
    ensures -1.0 < x - Truncate(x) as real < 1.0
    ensures x >= 0.0 ==> 0.0 <= Truncate(x) as real <= x
    ensures x <= 0.0 ==> x <= Truncate(x) as real <= 0.0
  {
  }

  /** Anti-windup: the learned drift is the admissible one nearest to what the
      error asks for, also where the clamp acts. */
  lemma LearnsNearest(c: Controller, measured: int, other: real)
    requires c.initialized && -MAX_FREQUENCY <= other <= MAX_FREQUENCY
    ensures var wanted := Unclamped(c.frequency, ErrorOf(c, measured));
            Abs(Update(c, measured).frequency - wanted) <= Abs(other - wanted)
  {
  }

  /** Over any run, one update moves the published offset by at most a tenth of
      the error, 500 ppm of a step and the cut, however large the error. */
  lemma SlewBounded(before: seq<int>, measured: int)
    requires before != []
    ensures var c := Updates(RESET, before);
            && c.initialized
            && Abs((Update(c, measured).offset - c.offset) as real) <= 0.1 * Abs(ErrorOf(c, measured)) + 50001.0
  {
    hide Truncate, Clamp, Unclamped, Updates;
    var c := Updates(RESET, before);
    InitializedAfterFirst(before);
    FrequencyBounded(before + [measured]);
    UpdatesGrow(before, measured);
    var d, error := Update(c, measured), ErrorOf(c, measured);
    TruncateNear(Corrected(c.offset as real, error, d.frequency));
    assert -50000.0 <= d.frequency * DT_NS <= 50000.0;
  }

  lemma UpdatesGrow(before: seq<int>, measured: int)
    ensures Updates(RESET, before + [measured]) == Update(Updates(RESET, before), measured)
  {
    assert (before + [measured])[..|before|] == before;
  }

  lemma {:induction false} InitializedAfterFirst(measured: seq<int>)
    requires measured != []
    ensures Updates(RESET, measured).initialized
  {
  }

  /** Offsets measured from a clock that gains `drift` ns per step, each step
      off by at most `jitter`. */
  ghost predicate Drifting(measured: seq<int>, drift: real, jitter: real) {
    forall i :: 0 <= i < |measured| - 1 ==> Abs((measured[i + 1] - measured[i]) as real - drift) <= jitter
  }

  function ErrorOf(c: Controller, measured: int): real {
    measured as real - c.offset as real
  }

  function LagOf(c: Controller, drift: real): real {
    c.frequency * DT_NS - drift
  }

  /** The floor the error settles into: rounding costs up to 1 ns a step. */
  function Settled(jitter: real): real {
    7.6 * ((jitter + 1.0) * (jitter + 1.0))
  }

  lemma OneUpdate(c: Controller, m: int, next: int, drift: real, jitter: real, energy: real)
    requires c.initialized && jitter >= 0.0 && Abs((next - m) as real - drift) <= jitter
    requires Within(energy, drift) && Settled(jitter) <= energy
    requires Energy(ErrorOf(c, m), LagOf(c, drift)) <= energy
    ensures Update(c, m).frequency == Unclamped(c.frequency, ErrorOf(c, m))
    ensures Energy(ErrorOf(Update(c, m), next), LagOf(Update(c, m), drift))
            <= 0.95 * Energy(ErrorOf(c, m), LagOf(c, drift)) + 0.38 * ((jitter + 1.0) * (jitter + 1.0)) <= energy
  {
    hide Energy, Within, Unclamped, Clamp, Truncate;
    var e, h, d := ErrorOf(c, m), LagOf(c, drift), Update(c, m);
    Contracts(e, h);
    EnergyBounds(e, h);
    var f := Unclamped(c.frequency, e);
    LearnedScales(c.frequency, e);
    NoClamp(energy, 0.88 * e - h, h + 0.02 * e, drift, f);
    assert d.frequency == f && LagOf(d, drift) == h + 0.02 * e;
    var raw := Corrected(c.offset as real, e, f);
    TruncateNear(raw);
    var w := ErrorOf(d, next) - (0.88 * e - h);
    assert w == ((next - m) as real - drift) + (raw - Truncate(raw) as real);
    Disturbed(0.88 * e - h, h + 0.02 * e, w);
    SquareBounds(w, jitter + 1.0);
    EnergyNext(Energy(e, h), Energy(0.88 * e - h, h + 0.02 * e), Energy(0.88 * e - h + w, h + 0.02 * e),
               w * w, (jitter + 1.0) * (jitter + 1.0), energy);
  }

  lemma EnergyNext(before: real, free: real, after: real, ww: real, jj: real, energy: real)
    requires free == 0.9 * before && after <= 19.0 / 18.0 * free + 0.38 * ww && ww <= jj
    requires before <= energy && 7.6 * jj <= energy
    ensures after <= 0.95 * before + 0.38 * jj <= energy
  {
  }

  function PublishedEnergy(c: Controller, measured: seq<int>, drift: real, n: nat): real
    requires n < |measured|
  {
    var d := Updates(c, measured[..n]);
    Energy(ErrorOf(d, measured[n]), LagOf(d, drift))
  }

  lemma NextUpdate(c: Controller, measured: seq<int>, drift: real, jitter: real, energy: real, n: nat)
    requires jitter >= 0.0 && Drifting(measured, drift, jitter) && n + 1 < |measured|
    requires Within(energy, drift) && Settled(jitter) <= energy && Updates(c, measured[..n]).initialized
    requires PublishedEnergy(c, measured, drift, n) <= energy
    ensures Updates(c, measured[..n + 1]).initialized
    ensures Updates(c, measured[..n + 1]).frequency
            == Unclamped(Updates(c, measured[..n]).frequency, ErrorOf(Updates(c, measured[..n]), measured[n]))
    ensures PublishedEnergy(c, measured, drift, n + 1)
            <= 0.95 * PublishedEnergy(c, measured, drift, n) + 0.05 * Settled(jitter) <= energy
  {
    hide Energy, Within;
    assert measured[..n + 1][..n] == measured[..n];
    OneUpdate(Updates(c, measured[..n]), measured[n], measured[n + 1], drift, jitter, energy);
  }

  /** The published offset tracks a drifting clock: the clamp never acts (the
      learned drift is the unclamped one), and after n updates the squared error
      is at most (0.95^n V0 + 7.6 (jitter + 1)^2) / 0.0164. */
  lemma {:induction false} TracksDrift(c: Controller, measured: seq<int>, drift: real, jitter: real, energy: real,
                                       n: nat)
    requires c.initialized && jitter >= 0.0 && Drifting(measured, drift, jitter) && n < |measured|
    requires Within(energy, drift) && Settled(jitter) <= energy && PublishedEnergy(c, measured, drift, 0) <= energy
    ensures Updates(c, measured[..n]).initialized && PublishedEnergy(c, measured, drift, n) <= energy
    ensures PublishedEnergy(c, measured, drift, n)
            <= Power(0.95, n) * PublishedEnergy(c, measured, drift, 0) + Settled(jitter)
    ensures var e := ErrorOf(Updates(c, measured[..n]), measured[n]);
            0.0164 * (e * e) <= Power(0.95, n) * PublishedEnergy(c, measured, drift, 0) + Settled(jitter)
    ensures n > 0 ==> var d := Updates(c, measured[..n - 1]);
                      Updates(c, measured[..n]).frequency == Unclamped(d.frequency, ErrorOf(d, measured[n - 1]))
  {
    hide Energy, Power, Within, Drifting, Updates, Update;
    var v0 := PublishedEnergy(c, measured, drift, 0);
    StartOfRun(c, measured);
    EnergyBounds(ErrorOf(c, measured[0]), LagOf(c, drift));
    SettledPositive(jitter);
    if n > 0 {
      TracksDrift(c, measured, drift, jitter, energy, n - 1);
      NextUpdate(c, measured, drift, jitter, energy, n - 1);
      PowerShrinks(0.95, n - 1, v0);
    } else {
      PowerShrinks(0.95, 0, v0);
    }
    var d := Updates(c, measured[..n]);
    EnergyBounds(ErrorOf(d, measured[n]), LagOf(d, drift));
  }

  lemma StartOfRun(c: Controller, measured: seq<int>)
    ensures Updates(c, measured[..0]) == c
  {
  }

  lemma SettledPositive(jitter: real)
    requires jitter >= 0.0
    ensures Settled(jitter) > 0.0
  {
    ProductPositive(jitter + 1.0, jitter + 1.0);
  }

  // ---- from the first measurement --------------------------------------

  /** What any controller makes of the first measurement: it publishes it and
      has learned no drift. */
  lemma FirstIsPublished(measured: int)
    ensures Updates(RESET, [measured]).initialized && Updates(RESET, [measured]).offset == measured
    ensures Updates(RESET, [measured]).frequency == 0.0
  {
    assert [measured][..0] == [];
  }

  lemma {:induction false} FirstThenRest(c: Controller, measured: seq<int>)
    requires measured != []
    ensures Updates(c, measured) == Updates(Updates(c, measured[..1]), measured[1..])
  {
    hide Update;
    var n := |measured| - 1;
    if n > 0 {
      FirstThenRest(c, measured[..n]);
      assert measured[..n][..1] == measured[..1];
      assert measured[..n][1..] == measured[1..][..n - 1] && measured[1..][n - 1] == measured[n];
    } else {
      assert measured[..1] == measured && measured[1..] == [];
    }
  }

  /** The most energy the second measurement can find: the lag is the whole
      drift, the error one step of it with its jitter. */
  function StartEnergy(drift: real, jitter: real): real {
    0.9 * (drift * drift) + 0.08 * (Abs(drift) * jitter) + 0.02 * (jitter * jitter)
  }

  /** Room enough below the clamp for the start and for the floor. */
  predicate Trackable(drift: real, jitter: real) {
    jitter >= 0.0 && Within(StartEnergy(drift, jitter), drift) && Within(Settled(jitter), drift)
  }

  function Larger(a: real, b: real): real {
    if a < b then b else a
  }

  lemma StartIsBounded(e: real, drift: real, jitter: real)
    requires jitter >= 0.0 && Abs(e - drift) <= jitter
    ensures Energy(e, -drift) <= StartEnergy(drift, jitter)
  {
    hide Abs;
    var w := e - drift;
    StartExpands(w, drift);
    WobbleBounded(w, drift, jitter);
  }

  lemma StartExpands(w: real, drift: real)
    ensures Energy(w + drift, -drift) == 0.9 * (drift * drift) - 0.08 * (drift * w) + 0.02 * (w * w)
  {
    var e := w + drift;
    assert e * e == w * w + 2.0 * (drift * w) + drift * drift;
    assert e * (-drift) == -(drift * w) - drift * drift;
    assert (-drift) * (-drift) == drift * drift;
    assert Energy(e, -drift) == 0.02 * (e * e) + 0.12 * (e * (-drift)) + (-drift) * (-drift);
  }

  lemma WobbleBounded(w: real, drift: real, jitter: real)
    requires jitter >= 0.0 && Abs(w) <= jitter
    ensures w * w <= jitter * jitter && -(drift * w) <= Abs(drift) * jitter
  {
    SquareBounds(w, jitter);
    var d := Abs(drift);
    NonNegativeProduct(d, jitter - w);
    NonNegativeProduct(d, jitter + w);
    assert d * (jitter - w) == d * jitter - d * w && d * (jitter + w) == d * jitter + d * w;
    assert drift >= 0.0 ==> drift * w == d * w;
    assert drift < 0.0 ==> drift * w == -(d * w);
  }

  lemma NonNegativeProduct(a: real, b: real)
    requires a >= 0.0 && b >= 0.0
    ensures a * b >= 0.0
  {
  }

  /** The energy the second measurement finds: its distance from the first is the
      error, the whole drift the lag. */
  function SecondEnergy(measured: seq<int>, drift: real): real
    requires |measured| > 1
  {
    Energy((measured[1] - measured[0]) as real, -drift)
  }

  /** From a reset controller the first measurement is published as it is, and the
      second finds the energy above, which drift and jitter bound. */
  lemma FirstOfRun(measured: seq<int>, drift: real, jitter: real)
    requires jitter >= 0.0 && Drifting(measured, drift, jitter) && |measured| > 1
    ensures Updates(RESET, measured[..1]) == Controller(0.0, true, measured[0])
    ensures PublishedEnergy(Controller(0.0, true, measured[0]), measured[1..], drift, 0)
            == SecondEnergy(measured, drift) <= StartEnergy(drift, jitter)
  {
    hide Energy, Updates, StartEnergy, Abs, Drifting;
    assert measured[..1] == [measured[0]];
    FirstIsPublished(measured[0]);
    LaterDrifts(measured, drift, jitter);
    StartIsBounded((measured[1] - measured[0]) as real, drift, jitter);
    StartOfRun(Controller(0.0, true, measured[0]), measured[1..]);
  }

  /** 0.95^n v. */
  function Decayed(v: real, n: nat): real {
    if n == 0 then v else 0.95 * Decayed(v, n - 1)
  }

  lemma {:induction false} DecayedIsPower(v: real, n: nat)
    ensures Decayed(v, n) == Power(0.95, n) * v
  {
    if n > 0 {
      DecayedIsPower(v, n - 1);
    }
  }

  /** From a reset controller, for any clock whose drift and jitter leave room
      below the clamp: after n updates the squared error is at most
      (0.95^(n - 1) V0 + 7.6 (jitter + 1)^2) / 0.0164, V0 being the energy the
      second measurement finds. */
  lemma TracksFromReset(measured: seq<int>, drift: real, jitter: real, n: nat)
    requires Trackable(drift, jitter) && Drifting(measured, drift, jitter) && 1 <= n < |measured|
    ensures var e := ErrorOf(Updates(RESET, measured[..n]), measured[n]);
            0.0164 * (e * e) <= Decayed(SecondEnergy(measured, drift), n - 1) + Settled(jitter)
  {
    hide *;
    var first, rest, energy := Controller(0.0, true, measured[0]), measured[1..], EnoughEnergy(drift, jitter);
    RoomToTrack(drift, jitter);
    FirstOfRun(measured, drift, jitter);
    LaterDrifts(measured, drift, jitter);
    TracksDrift(first, rest, drift, jitter, energy, n - 1);
    DecayedIsPower(SecondEnergy(measured, drift), n - 1);
    AfterFirst(measured, n);
  }

  function EnoughEnergy(drift: real, jitter: real): real {
    Larger(StartEnergy(drift, jitter), Settled(jitter))
  }

  lemma RoomToTrack(drift: real, jitter: real)
    requires Trackable(drift, jitter)
    ensures jitter >= 0.0 && Within(EnoughEnergy(drift, jitter), drift)
    ensures Settled(jitter) <= EnoughEnergy(drift, jitter) && StartEnergy(drift, jitter) <= EnoughEnergy(drift, jitter)
  {
    hide StartEnergy, Settled, Within;
  }

  /** And the clamp never acts: the learned drift is the unclamped one. */
  lemma NeverClamped(measured: seq<int>, drift: real, jitter: real, n: nat)
    requires Trackable(drift, jitter) && Drifting(measured, drift, jitter) && 1 < n < |measured|
    ensures var before := Updates(RESET, measured[..n - 1]);
            Updates(RESET, measured[..n]).frequency == Unclamped(before.frequency, ErrorOf(before, measured[n - 1]))
  {
    hide *;
    RoomToTrack(drift, jitter);
    FirstOfRun(measured, drift, jitter);
    LaterDrifts(measured, drift, jitter);
    TracksDrift(Controller(0.0, true, measured[0]), measured[1..], drift, jitter, EnoughEnergy(drift, jitter), n - 1);
    AfterFirst(measured, n);
    AfterFirst(measured, n - 1);
  }

  lemma LaterDrifts(measured: seq<int>, drift: real, jitter: real)
    requires Drifting(measured, drift, jitter) && |measured| > 1
    ensures Drifting(measured[1..], drift, jitter) && Abs((measured[1] - measured[0]) as real - drift) <= jitter
  {
    hide Abs;
    var rest := measured[1..];
    assert measured[0 + 1] == measured[1];
    forall i | 0 <= i < |rest| - 1 ensures Abs((rest[i + 1] - rest[i]) as real - drift) <= jitter {
      assert rest[i] == measured[i + 1] && rest[i + 1] == measured[i + 1 + 1];
    }
  }

  lemma AfterFirst(measured: seq<int>, n: nat)
    requires 1 <= n < |measured|
    ensures Updates(RESET, measured[..n]) == Updates(Updates(RESET, measured[..1]), measured[1..][..n - 1])
    ensures measured[n] == measured[1..][n - 1]
  {
    hide Updates;
    FirstThenRest(RESET, measured[..n]);
    assert measured[..n][..1] == measured[..1] && measured[..n][1..] == measured[1..][..n - 1];
  }

  /** 200 ppm of drift with 8 microseconds of jitter is well within reach. */
  lemma TrackableRange(drift: real, jitter: real)
    requires Abs(drift) <= 20000.0 && 0.0 <= jitter <= 8000.0
    ensures Trackable(drift, jitter)
  {
    var d, room := Abs(drift), 50000.0 - Abs(drift);
    assert drift * drift == d * d;
    ProductBelow(d, 20000.0, d, 20000.0);
    ProductBelow(d, 20000.0, jitter, 8000.0);
    ProductBelow(jitter, 8000.0, jitter, 8000.0);
    ProductBelow(jitter + 1.0, 8001.0, jitter + 1.0, 8001.0);
    ProductBelow(30000.0, room, 30000.0, room);
  }

  lemma ProductBelow(a: real, b: real, c: real, d: real)
    requires 0.0 <= a <= b && 0.0 <= c <= d
    ensures a * c <= b * d
  {
    NonNegativeProduct(b - a, c);
    NonNegativeProduct(b, d - c);
    assert (b - a) * c == b * c - a * c && b * (d - c) == b * d - b * c;
  }
}
