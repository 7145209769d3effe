/**
 * The training-schedule evaluator of progressive GAN training: a pure function
 * from the number of real images shown so far to the time-varying training
 * parameters (level of detail, resolution, minibatch sizes, learning rates and
 * the maintenance-tick interval).
 *
 * Arithmetic is exact: kimg, lod and the rates are `real`, not floating point.
 */
module Schedule {

  datatype Option<T> = None | Some(value: T)

  /**
   * The only way the evaluator can fail: an initial resolution of 0 or less
   * makes `log2` give -inf or NaN, so the level of detail is infinite or NaN
   * and its conversion to an integer raises.
   */
  datatype ScheduleError = NonPositiveInitialResolution

  datatype Result<T> = Ok(value: T) | Err(error: ScheduleError)

  /** The keyword arguments of the evaluator (everything except `cur_nimg` and the dataset). */
  datatype Config = Config(
    lodInitialResolution: Option<int>,  // resolution used at the beginning (a whole number); None = full resolution throughout
    lodTrainingKimg: real,              // kimg shown before doubling the resolution
    lodTransitionKimg: real,            // kimg shown while fading in new layers
    minibatchSizeBase: nat,             // global minibatch size
    minibatchSizeDict: map<int, nat>,   // per-resolution overrides
    minibatchGpuBase: nat,              // samples processed at a time by one GPU
    minibatchGpuDict: map<int, nat>,
    gLrateBase: real,
    gLrateDict: map<int, real>,
    dLrateBase: real,
    dLrateDict: map<int, real>,
    lrateRampupKimg: real,              // duration of the learning-rate ramp-up; <= 0 means none
    tickKimgBase: real,                 // default interval of progress ticks
    tickKimgDict: map<int, real>)

  /** The schedule record for one point in training. */
  datatype TrainingSchedule = TrainingSchedule(
    kimg: real,
    lod: real,
    resolution: nat,
    minibatchSize: nat,
    minibatchGpu: nat,
    gLrate: real,
    dLrate: real,
    tickKimg: real)

  /** The per-resolution tick intervals the evaluator uses when none are configured. */
  const DefaultTickKimgDict: map<int, real> :=
    map[8 := 28.0, 16 := 24.0, 32 := 20.0, 64 := 16.0, 128 := 12.0, 256 := 10.0, 512 := 10.0, 1024 := 10.0]

  /** The evaluator's default keyword arguments. */
  const DefaultConfig: Config :=
    Config(None, 600.0, 600.0, 32, map[], 4, map[], 0.002, map[], 0.002, map[], 0.0, 4.0, DefaultTickKimgDict)

  function Max(a: real, b: real): real { if a >= b then a else b }

  function Min(a: real, b: real): real { if a <= b then a else b }

  /** `dict.get(key, base)`: the override when `key` is a key of the table, else the base value. */
  function Lookup<T>(table: map<int, T>, key: int, base: T): T
  {
    if key in table then table[key] else base
  }

  function Pow2(e: nat): (p: nat)
    ensures p >= 1
  {
    if e == 0 then 1 else 2 * Pow2(e - 1)
  }

  lemma {:induction false} Pow2Monotone(a: nat, b: nat)
    requires a <= b
    ensures Pow2(a) <= Pow2(b)
    decreases b
  {
    if a < b {
      Pow2Monotone(a, b - 1);
    }
  }

  /** `floor(log2(n))` for a positive integer, by repeated halving. */
  function Log2Floor(n: int): (e: nat)
    requires n >= 1
    ensures Pow2(e) <= n < Pow2(e + 1)
    decreases n
  {
    if n == 1 then 0 else 1 + Log2Floor(n / 2)
  }

  /**
   * Index of the progressive-growth phase that `kimg` falls in; a phase lasts
   * `phaseDur` kimg. A non-positive duration is guarded and gives phase 0.
   */
  function PhaseIndex(kimg: real, phaseDur: real): (idx: int)
    ensures phaseDur <= 0.0 ==> idx == 0
    ensures phaseDur > 0.0 ==> idx as real * phaseDur <= kimg < (idx + 1) as real * phaseDur
    ensures phaseDur > 0.0 && kimg >= 0.0 ==> idx >= 0
  {
    if phaseDur > 0.0 then
      FloorOfQuotient(kimg, phaseDur);
      (kimg / phaseDur).Floor
    else
      0
  }

  lemma FloorOfQuotient(x: real, d: real)
    requires d > 0.0
    ensures (x / d).Floor as real * d <= x < ((x / d).Floor + 1) as real * d
    ensures x >= 0.0 ==> (x / d).Floor >= 0
  {
    var q := x / d;
    var f := q.Floor as real;
    var g := (q.Floor + 1) as real;
    assert q * d == x;
    assert f <= q < g;
    MulStrict(q, g, d);
    MulLe(f, q, d);
    assert x < g * d;
    assert x < ((x / d).Floor + 1) as real * d;
    assert x >= 0.0 ==> q >= 0.0;
  }

  lemma MulStrict(a: real, b: real, d: real)
    requires a < b && d > 0.0
    ensures a * d < b * d
  {
    assert (b - a) * d > 0.0;
  }

  lemma MulLe(a: real, b: real, d: real)
    requires a <= b && d > 0.0
    ensures a * d <= b * d
  {
    assert (b - a) * d >= 0.0;
  }

  /** kimg into the current phase. */
  function PhaseKimg(cfg: Config, kimg: real): real
  {
    var phaseDur := cfg.lodTrainingKimg + cfg.lodTransitionKimg;
    kimg - PhaseIndex(kimg, phaseDur) as real * phaseDur
  }

  /**
   * How far the fade-in of the next resolution has progressed; no division
   * happens when the transition is not positive.
   */
  function TransitionFraction(cfg: Config, phaseKimg: real): (f: real)
    ensures f >= 0.0
    ensures cfg.lodTransitionKimg <= 0.0 ==> f == 0.0
  {
    if cfg.lodTransitionKimg > 0.0 then
      var x := Max(phaseKimg - cfg.lodTrainingKimg, 0.0);
      DivNonNeg(x, cfg.lodTransitionKimg);
      x / cfg.lodTransitionKimg
    else
      0.0
  }

  lemma DivNonNeg(x: real, d: real)
    requires x >= 0.0 && d > 0.0
    ensures x / d >= 0.0
  {
    assert (x / d) * d == x;
  }

  predicate ValidInitialResolution(cfg: Config)
  {
    cfg.lodInitialResolution.Some? ==> cfg.lodInitialResolution.value >= 1
  }

  /**
   * Whole phases completed plus the fraction of the current fade-in: how many
   * resolution doublings `kimg` has earned so far.
   */
  function PhaseProgress(cfg: Config, kimg: real): (p: real)
    ensures kimg >= 0.0 ==> p >= 0.0
  {
    var phaseDur := cfg.lodTrainingKimg + cfg.lodTransitionKimg;
    PhaseIndex(kimg, phaseDur) as real + TransitionFraction(cfg, PhaseKimg(cfg, kimg))
  }

  /** The level of detail before the clamp at 0. */
  function RawLod(cfg: Config, resolutionLog2: nat, kimg: real): real
    requires ValidInitialResolution(cfg) && cfg.lodInitialResolution.Some?
  {
    resolutionLog2 as real - Log2Floor(cfg.lodInitialResolution.value) as real - PhaseProgress(cfg, kimg)
  }

  /** The continuous level of detail: 0 trains at full resolution, each unit halves it. */
  function Lod(cfg: Config, resolutionLog2: nat, kimg: real): (lod: real)
    requires ValidInitialResolution(cfg) && kimg >= 0.0
    ensures 0.0 <= lod <= resolutionLog2 as real
    ensures cfg.lodInitialResolution.None? ==> lod == 0.0
  {
    match cfg.lodInitialResolution
    case None => 0.0
    case Some(_) => Max(RawLod(cfg, resolutionLog2, kimg), 0.0)
  }

  /** The learning rate after the linear ramp-up, when one is configured. */
  function RampedRate(cfg: Config, rate: real, kimg: real): real
  {
    if cfg.lrateRampupKimg > 0.0 then rate * Min(kimg / cfg.lrateRampupKimg, 1.0) else rate
  }

  /**
   * The schedule at `curNimg` images shown, for a dataset of resolution
   * `2^resolutionLog2`.
   */
  function Evaluate(cfg: Config, resolutionLog2: nat, curNimg: nat): (r: Result<TrainingSchedule>)
    ensures r.Ok? <==> ValidInitialResolution(cfg)
    ensures r.Ok? ==> r.value.kimg == curNimg as real / 1000.0
    ensures r.Ok? ==> r.value.lod == Lod(cfg, resolutionLog2, curNimg as real / 1000.0)
    ensures r.Ok? ==> 0.0 <= r.value.lod <= resolutionLog2 as real
    ensures r.Ok? ==> 0 <= r.value.lod.Floor <= resolutionLog2
    ensures r.Ok? ==> r.value.resolution == Pow2(resolutionLog2 - r.value.lod.Floor)
    ensures r.Ok? ==> 1 <= r.value.resolution <= Pow2(resolutionLog2)
    ensures cfg.lodInitialResolution.None? ==>
      r.Ok? && r.value.lod == 0.0 && r.value.resolution == Pow2(resolutionLog2)
    ensures r.Ok? ==>
      && (r.value.resolution in cfg.minibatchSizeDict ==> r.value.minibatchSize == cfg.minibatchSizeDict[r.value.resolution])
      && (r.value.resolution !in cfg.minibatchSizeDict ==> r.value.minibatchSize == cfg.minibatchSizeBase)
      && (r.value.resolution in cfg.minibatchGpuDict ==> r.value.minibatchGpu == cfg.minibatchGpuDict[r.value.resolution])
      && (r.value.resolution !in cfg.minibatchGpuDict ==> r.value.minibatchGpu == cfg.minibatchGpuBase)
      && (r.value.resolution in cfg.tickKimgDict ==> r.value.tickKimg == cfg.tickKimgDict[r.value.resolution])
      && (r.value.resolution !in cfg.tickKimgDict ==> r.value.tickKimg == cfg.tickKimgBase)
  {
    if !ValidInitialResolution(cfg) then
      Err(NonPositiveInitialResolution)
    else
      var kimg := curNimg as real / 1000.0;
      var lod := Lod(cfg, resolutionLog2, kimg);
      var e: nat := resolutionLog2 - lod.Floor;
      var resolution := Pow2(e);
      Pow2Monotone(e, resolutionLog2);
      Ok(TrainingSchedule(
        kimg,
        lod,
        resolution,
        Lookup(cfg.minibatchSizeDict, resolution, cfg.minibatchSizeBase),
        Lookup(cfg.minibatchGpuDict, resolution, cfg.minibatchGpuBase),
        RampedRate(cfg, Lookup(cfg.gLrateDict, resolution, cfg.gLrateBase), kimg),
        RampedRate(cfg, Lookup(cfg.dLrateDict, resolution, cfg.dLrateBase), kimg),
        Lookup(cfg.tickKimgDict, resolution, cfg.tickKimgBase)))
  }

  /**
   * The learning-rate ramp-up is linear: the rate scaled by the fraction of
   * the ramp-up done, starting at 0, never above the rate and reaching it exactly.
   */
  lemma RampUpFactor(cfg: Config, rate: real, kimg: real)
    requires kimg >= 0.0
    ensures cfg.lrateRampupKimg <= 0.0 ==> RampedRate(cfg, rate, kimg) == rate
    ensures cfg.lrateRampupKimg > 0.0 && kimg < cfg.lrateRampupKimg ==>
      RampedRate(cfg, rate, kimg) == rate * (kimg / cfg.lrateRampupKimg)
    ensures cfg.lrateRampupKimg > 0.0 && kimg == 0.0 ==> RampedRate(cfg, rate, kimg) == 0.0
    ensures kimg >= cfg.lrateRampupKimg ==> RampedRate(cfg, rate, kimg) == rate
    ensures rate >= 0.0 ==> 0.0 <= RampedRate(cfg, rate, kimg) <= rate
  {
    if cfg.lrateRampupKimg > 0.0 {
      var f := Min(kimg / cfg.lrateRampupKimg, 1.0);
      DivNonNeg(kimg, cfg.lrateRampupKimg);
      if kimg >= cfg.lrateRampupKimg {
        DivAtLeastOne(kimg, cfg.lrateRampupKimg);
      } else {
        DivBelowOne(kimg, cfg.lrateRampupKimg);
      }
      assert 0.0 <= f <= 1.0;
      if rate >= 0.0 {
        MulLe(f, 1.0, rate + 1.0);
        assert rate * f <= rate by { MulLeNonNeg(rate, f); }
      }
    }
  }

  /** A non-negative rate never decreases during the ramp-up. */
  lemma RampUpMonotone(cfg: Config, rate: real, k1: real, k2: real)
    requires rate >= 0.0 && 0.0 <= k1 <= k2
    ensures RampedRate(cfg, rate, k1) <= RampedRate(cfg, rate, k2)
  {
    if cfg.lrateRampupKimg > 0.0 {
      DivMonotone(k1, k2, cfg.lrateRampupKimg);
      var f1, f2 := Min(k1 / cfg.lrateRampupKimg, 1.0), Min(k2 / cfg.lrateRampupKimg, 1.0);
      assert f1 <= f2;
      assert rate * f1 <= rate * f2 by { assert rate * (f2 - f1) >= 0.0; }
    }
  }

  lemma DivAtLeastOne(x: real, d: real)
    requires d > 0.0 && x >= d
    ensures x / d >= 1.0
  {
    assert (x / d) * d == x;
  }

  lemma MulLeNonNeg(a: real, f: real)
    requires a >= 0.0 && 0.0 <= f <= 1.0
    ensures 0.0 <= a * f <= a
  {
    assert a * (1.0 - f) >= 0.0;
  }

  /**
   * The learning rates of a schedule: the resolution's lookups scaled by the
   * linear ramp-up, 0 at its start and exact once it ends.
   */
  lemma LearningRates(cfg: Config, resolutionLog2: nat, curNimg: nat)
    requires ValidInitialResolution(cfg)
    ensures var s := Evaluate(cfg, resolutionLog2, curNimg).value;
      var g := Lookup(cfg.gLrateDict, s.resolution, cfg.gLrateBase);
      var d := Lookup(cfg.dLrateDict, s.resolution, cfg.dLrateBase);
      && (cfg.lrateRampupKimg <= 0.0 || s.kimg >= cfg.lrateRampupKimg ==> s.gLrate == g && s.dLrate == d)
      && (cfg.lrateRampupKimg > 0.0 && s.kimg < cfg.lrateRampupKimg ==>
            s.gLrate == g * (s.kimg / cfg.lrateRampupKimg) && s.dLrate == d * (s.kimg / cfg.lrateRampupKimg))
      && (cfg.lrateRampupKimg > 0.0 && curNimg == 0 ==> s.gLrate == 0.0 && s.dLrate == 0.0)
      && (g >= 0.0 ==> 0.0 <= s.gLrate <= g)
      && (d >= 0.0 ==> 0.0 <= s.dLrate <= d)
  {
    var s := Evaluate(cfg, resolutionLog2, curNimg).value;
    var g, d := Lookup(cfg.gLrateDict, s.resolution, cfg.gLrateBase), Lookup(cfg.dLrateDict, s.resolution, cfg.dLrateBase);
    assert s.kimg >= 0.0 && (curNimg == 0 ==> s.kimg == 0.0);
    assert s.gLrate == RampedRate(cfg, g, s.kimg) && s.dLrate == RampedRate(cfg, d, s.kimg);
    RampUpFactor(cfg, g, s.kimg);
    RampUpFactor(cfg, d, s.kimg);
  }

  /** At one resolution, non-negative learning rates never decrease as training proceeds. */
  lemma LearningRatesMonotone(cfg: Config, resolutionLog2: nat, n1: nat, n2: nat)
    requires ValidInitialResolution(cfg) && n1 <= n2
    ensures var s1, s2 := Evaluate(cfg, resolutionLog2, n1).value, Evaluate(cfg, resolutionLog2, n2).value;
      s1.resolution == s2.resolution ==>
        && (Lookup(cfg.gLrateDict, s1.resolution, cfg.gLrateBase) >= 0.0 ==> s1.gLrate <= s2.gLrate)
        && (Lookup(cfg.dLrateDict, s1.resolution, cfg.dLrateBase) >= 0.0 ==> s1.dLrate <= s2.dLrate)
  {
    var s1, s2 := Evaluate(cfg, resolutionLog2, n1).value, Evaluate(cfg, resolutionLog2, n2).value;
    DivMonotone(n1 as real, n2 as real, 1000.0);
    var g, d := Lookup(cfg.gLrateDict, s1.resolution, cfg.gLrateBase), Lookup(cfg.dLrateDict, s1.resolution, cfg.dLrateBase);
    if s1.resolution == s2.resolution {
      if g >= 0.0 {
        RampUpMonotone(cfg, g, s1.kimg, s2.kimg);
      }
      if d >= 0.0 {
        RampUpMonotone(cfg, d, s1.kimg, s2.kimg);
      }
    }
  }

  /**
   * With every keyword argument at its default, training runs at full
   * resolution throughout, with minibatches of 32 split 4 per GPU, both
   * learning rates at 0.002 and the default tick interval of that
   * resolution: 10 kimg for a 1024x1024 dataset.
   */
  lemma DefaultSchedule(resolutionLog2: nat, curNimg: nat)
    ensures var s := Evaluate(DefaultConfig, resolutionLog2, curNimg).value;
      && s.lod == 0.0 && s.resolution == Pow2(resolutionLog2)
      && s.minibatchSize == 32 && s.minibatchGpu == 4
      && s.gLrate == 0.002 && s.dLrate == 0.002
      && s.tickKimg == Lookup(DefaultTickKimgDict, Pow2(resolutionLog2), 4.0)
      && (resolutionLog2 == 10 ==> s.tickKimg == 10.0)
  {
    if resolutionLog2 == 10 {
      assert Pow2(10) == 1024 by {
        assert Pow2(2) == 4;
        assert Pow2(5) == 32;
        assert Pow2(8) == 256;
      }
    }
  }

  lemma DivMonotone(x: real, y: real, d: real)
    requires x <= y && d > 0.0
    ensures x / d <= y / d
  {
    assert (x / d) * d == x && (y / d) * d == y;
  }

  lemma DivBelowOne(x: real, d: real)
    requires x < d && d > 0.0
    ensures x / d < 1.0
  {
    assert (x / d) * d == x;
    if x / d >= 1.0 {
      MulLe(1.0, x / d, d);
    }
  }

  lemma FractionMonotone(cfg: Config, p1: real, p2: real)
    requires p1 <= p2
    ensures TransitionFraction(cfg, p1) <= TransitionFraction(cfg, p2)
  {
    if cfg.lodTransitionKimg > 0.0 {
      DivMonotone(Max(p1 - cfg.lodTrainingKimg, 0.0), Max(p2 - cfg.lodTrainingKimg, 0.0), cfg.lodTransitionKimg);
    }
  }

  /** Inside a phase the fade-in fraction stays below one whole doubling. */
  lemma FractionBelowOne(cfg: Config, phaseKimg: real)
    requires phaseKimg < cfg.lodTrainingKimg + cfg.lodTransitionKimg
    ensures TransitionFraction(cfg, phaseKimg) < 1.0
  {
    if cfg.lodTransitionKimg > 0.0 {
      DivBelowOne(Max(phaseKimg - cfg.lodTrainingKimg, 0.0), cfg.lodTransitionKimg);
    }
  }

  /** Later points in training are in the same phase or a later one. */
  lemma PhaseIndexMonotone(k1: real, k2: real, phaseDur: real)
    requires k1 <= k2
    ensures PhaseIndex(k1, phaseDur) <= PhaseIndex(k2, phaseDur)
  {
    if phaseDur > 0.0 {
      DivMonotone(k1, k2, phaseDur);
    }
  }

  /** Progress through the phases never goes backwards as more images are shown. */
  lemma {:induction false} PhaseProgressMonotone(cfg: Config, k1: real, k2: real)
    requires 0.0 <= k1 <= k2
    ensures PhaseProgress(cfg, k1) <= PhaseProgress(cfg, k2)
  {
    var phaseDur := cfg.lodTrainingKimg + cfg.lodTransitionKimg;
    var i1, i2 := PhaseIndex(k1, phaseDur), PhaseIndex(k2, phaseDur);
    var p1, p2 := PhaseKimg(cfg, k1), PhaseKimg(cfg, k2);
    PhaseIndexMonotone(k1, k2, phaseDur);
    if i1 == i2 {
      FractionMonotone(cfg, p1, p2);
    } else {
      assert phaseDur > 0.0;
      assert (i1 + 1) as real * phaseDur == i1 as real * phaseDur + phaseDur;
      FractionBelowOne(cfg, p1);
    }
  }

  /** The level of detail is non-increasing in the number of images shown. */
  lemma LodMonotone(cfg: Config, resolutionLog2: nat, k1: real, k2: real)
    requires ValidInitialResolution(cfg) && 0.0 <= k1 <= k2
    ensures Lod(cfg, resolutionLog2, k2) <= Lod(cfg, resolutionLog2, k1)
  {
    PhaseProgressMonotone(cfg, k1, k2);
  }

  lemma {:induction false} Pow2Add(a: nat, b: nat)
    ensures Pow2(a + b) == Pow2(a) * Pow2(b)
    decreases a
  {
    if a > 0 {
      Pow2Add(a - 1, b);
    }
  }

  /**
   * As training proceeds the resolution only grows, by whole doublings:
   * a later schedule's resolution is the earlier one times a power of two.
   */
  lemma ResolutionOnlyDoubles(cfg: Config, resolutionLog2: nat, n1: nat, n2: nat)
    requires ValidInitialResolution(cfg) && n1 <= n2
    ensures var s1, s2 := Evaluate(cfg, resolutionLog2, n1).value, Evaluate(cfg, resolutionLog2, n2).value;
      && s2.lod <= s1.lod
      && s2.lod.Floor <= s1.lod.Floor
      && s2.resolution == s1.resolution * Pow2(s1.lod.Floor - s2.lod.Floor)
      && s1.resolution <= s2.resolution
  {
    var s1, s2 := Evaluate(cfg, resolutionLog2, n1).value, Evaluate(cfg, resolutionLog2, n2).value;
    LodMonotone(cfg, resolutionLog2, n1 as real / 1000.0, n2 as real / 1000.0);
    var e1, e2 := resolutionLog2 - s1.lod.Floor, resolutionLog2 - s2.lod.Floor;
    Pow2Add(e1, s1.lod.Floor - s2.lod.Floor);
    Pow2Monotone(e1, e2);
  }

  /** No images shown: the first phase, before any fade-in. */
  lemma ProgressAtStart(cfg: Config)
    requires cfg.lodTrainingKimg >= 0.0
    ensures PhaseProgress(cfg, 0.0) == 0.0
  {
    var phaseDur := cfg.lodTrainingKimg + cfg.lodTransitionKimg;
    var idx := PhaseIndex(0.0, phaseDur);
    if phaseDur > 0.0 && idx >= 1 {
      MulLe(1.0, idx as real, phaseDur);
    }
    assert idx == 0;
    assert PhaseKimg(cfg, 0.0) == 0.0;
  }

  /** The level of detail at the start of training. */
  lemma LodAtStart(cfg: Config, resolutionLog2: nat)
    requires cfg.lodInitialResolution.Some? && cfg.lodInitialResolution.value >= 1
    requires cfg.lodTrainingKimg >= 0.0
    ensures var e := Log2Floor(cfg.lodInitialResolution.value);
      Lod(cfg, resolutionLog2, 0.0) == (if e <= resolutionLog2 then resolutionLog2 - e else 0) as real
  {
    ProgressAtStart(cfg);
  }

  /** The schedule's level of detail when no images have been shown. */
  lemma ScheduleLodAtStart(cfg: Config, resolutionLog2: nat)
    requires cfg.lodInitialResolution.Some? && cfg.lodInitialResolution.value >= 1
    requires cfg.lodTrainingKimg >= 0.0
    ensures var e := Log2Floor(cfg.lodInitialResolution.value);
      Evaluate(cfg, resolutionLog2, 0).value.lod == (if e <= resolutionLog2 then resolutionLog2 - e else 0) as real
  {
    assert 0 as real / 1000.0 == 0.0;
    LodAtStart(cfg, resolutionLog2);
  }

  /** Training starts at the configured initial resolution, rounded down to a power of two. */
  lemma StartsAtInitialResolution(cfg: Config, resolutionLog2: nat)
    requires cfg.lodInitialResolution.Some? && cfg.lodInitialResolution.value >= 1
    requires cfg.lodTrainingKimg >= 0.0
    requires Log2Floor(cfg.lodInitialResolution.value) <= resolutionLog2
    ensures var s := Evaluate(cfg, resolutionLog2, 0).value;
      var e := Log2Floor(cfg.lodInitialResolution.value);
      s.lod == (resolutionLog2 - e) as real && s.resolution == Pow2(e)
  {
    ScheduleLodAtStart(cfg, resolutionLog2);
    var e := Log2Floor(cfg.lodInitialResolution.value);
    WholeLodResolution(cfg, resolutionLog2, 0, resolutionLog2 - e);
  }

  /** An initial resolution above the dataset's starts training at full resolution. */
  lemma StartsAtFullResolution(cfg: Config, resolutionLog2: nat)
    requires cfg.lodInitialResolution.Some? && cfg.lodInitialResolution.value >= 1
    requires cfg.lodTrainingKimg >= 0.0
    requires Log2Floor(cfg.lodInitialResolution.value) > resolutionLog2
    ensures var s := Evaluate(cfg, resolutionLog2, 0).value;
      s.lod == 0.0 && s.resolution == Pow2(resolutionLog2)
  {
    ScheduleLodAtStart(cfg, resolutionLog2);
    WholeLodResolution(cfg, resolutionLog2, 0, 0);
  }

  /** A whole-number level of detail `w` trains at `2^(resolutionLog2 - w)`. */
  lemma WholeLodResolution(cfg: Config, resolutionLog2: nat, curNimg: nat, w: nat)
    requires ValidInitialResolution(cfg)
    requires Evaluate(cfg, resolutionLog2, curNimg).value.lod == w as real
    ensures w <= resolutionLog2
    ensures Evaluate(cfg, resolutionLog2, curNimg).value.resolution == Pow2(resolutionLog2 - w)
  {
    assert (w as real).Floor == w;
  }

  /** Without a transition period there is no fading: the level of detail is always a whole number. */
  lemma NoTransitionWholeLod(cfg: Config, resolutionLog2: nat, kimg: real)
    requires ValidInitialResolution(cfg) && kimg >= 0.0
    requires cfg.lodTransitionKimg <= 0.0
    ensures Lod(cfg, resolutionLog2, kimg) == Lod(cfg, resolutionLog2, kimg).Floor as real
  {
    if cfg.lodInitialResolution.Some? {
      var phaseDur := cfg.lodTrainingKimg + cfg.lodTransitionKimg;
      var m := resolutionLog2 - Log2Floor(cfg.lodInitialResolution.value) - PhaseIndex(kimg, phaseDur);
      assert TransitionFraction(cfg, PhaseKimg(cfg, kimg)) == 0.0;
      assert RawLod(cfg, resolutionLog2, kimg) == m as real;
      var w := if m >= 0 then m else 0;
      assert Lod(cfg, resolutionLog2, kimg) == w as real;
      assert (w as real).Floor == w;
    }
  }
}
