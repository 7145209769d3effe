/**
 * The bookkeeping of the main training loop, one iteration at a time, as a
 * pure function of the loop counters. TensorFlow calls and file output are
 * replaced by abstract events; the training ops themselves are not modelled.
 */
module LoopSpec {
  import opened Schedule

  /** The arguments of the training loop that its bookkeeping depends on. */
  datatype LoopConfig = LoopConfig(
    schedule: Config,                   // keyword arguments of the schedule evaluator
    resolutionLog2: nat,                // log2 of the training set's resolution
    numGpus: nat,
    totalKimg: real,                    // total length of training, in thousands of real images
    emaStartKimg: Option<real>,         // start of the generator moving average; None = its half-life
    gEmaKimg: real,                     // half-life of the generator moving average
    minibatchRepeats: nat,              // minibatches run before the schedule is re-evaluated
    lazyRegularization: bool,
    dRegInterval: nat,
    resetOptForNewLod: bool,
    imageSnapshotTicks: Option<nat>,    // None = no periodic image snapshots
    networkSnapshotTicks: Option<nat>,  // None = no periodic network snapshots
    resumeKimg: real)                   // assumed training progress at the beginning

  /** The loop's counters. `curTick` is -1 and `prevLod` is -1.0 before the first tick. */
  datatype Counters = Counters(
    curNimg: nat,
    curTick: int,
    tickStartNimg: nat,
    prevLod: real,
    runningMbCounter: nat)

  /** What the loop does to the outside world, in the order it does it. */
  datatype Event =
    | ResetOpt                                      // both optimizers drop their internal state
    | TrainRound(lod: real, gLrate: real, dLrate: real, minibatchSize: nat,
                 minibatchGpu: nat, runDReg: bool, gsBetaMul: int)  // one G step and one D step with this feed
    | Tick(tick: int, nimg: nat)                    // progress report of a maintenance tick
    | ImageSnapshot(kimg: nat)                      // fakesKKKKKK.png
    | NetSnapshot(kimg: nat)                        // network-snapshot-KKKKKK.pkl, then the metrics
    | Final                                         // network-final.pkl

  /** The exceptions an iteration can raise; each one ends training. */
  datatype Failure =
    | BadInitialResolution   // an initial resolution of 0 or less: int() of an infinite or NaN lod
    | ZeroGpuBatch           // minibatch_gpu * num_gpus == 0: modulo by zero
    | IndivisibleMinibatch   // the divisibility assertion fails
    | ZeroRegInterval        // lazy regularization with D_reg_interval == 0: modulo by zero
    | ZeroTickProgress       // a tick with no images shown since the last one: division by zero in the report
    | ZeroSnapshotCadence    // a snapshot cadence of 0: modulo by zero

  datatype Outcome = Continue | Completed | Stopped | Failed(failure: Failure)

  datatype StepResult = StepResult(outcome: Outcome, next: Counters, events: seq<Event>)

  /** The counters before the first iteration; `int()` truncates the non-negative resume point. */
  function InitialCounters(cfg: LoopConfig): (c: Counters)
    requires cfg.resumeKimg >= 0.0
    ensures c.curTick == -1 && c.prevLod == -1.0 && c.runningMbCounter == 0
    ensures c.tickStartNimg == c.curNimg
    ensures c.curNimg as real <= cfg.resumeKimg * 1000.0 < (c.curNimg + 1) as real
  {
    var n := (cfg.resumeKimg * 1000.0).Floor;
    Counters(n, -1, n, -1.0, 0)
  }

  /** The loop condition. */
  predicate Running(cfg: LoopConfig, c: Counters)
  {
    (c.curNimg as real) < cfg.totalKimg * 1000.0
  }

  function EmaStartKimg(cfg: LoopConfig): real
  {
    match cfg.emaStartKimg
    case None => cfg.gEmaKimg
    case Some(k) => k
  }

  /** The multiplier of the moving-average decay: 0 freezes Gs until the start point is reached. */
  function GsBetaMul(cfg: LoopConfig, curNimg: nat): (m: int)
    ensures m == 0 || m == 1
  {
    if curNimg as real >= EmaStartKimg(cfg) * 1000.0 then 1 else 0
  }

  function Ceil(x: real): int
  {
    -((-x).Floor)
  }

  /** The level of detail moved to another integer band. */
  predicate LodBandChanged(lod: real, prevLod: real)
  {
    lod.Floor != prevLod.Floor || Ceil(lod) != Ceil(prevLod)
  }

  /** Whether the repeat run with this running minibatch counter adds the D regularization term. */
  function RunDReg(cfg: LoopConfig, counter: nat): bool
    requires cfg.lazyRegularization ==> cfg.dRegInterval > 0
  {
    cfg.lazyRegularization && counter % cfg.dRegInterval == 0
  }

  function RoundEvent(cfg: LoopConfig, s: TrainingSchedule, betaMul: int, counter: nat): Event
    requires cfg.lazyRegularization ==> cfg.dRegInterval > 0
  {
    TrainRound(s.lod, s.gLrate, s.dLrate, s.minibatchSize, s.minibatchGpu, RunDReg(cfg, counter), betaMul)
  }

  /** The training rounds of the first `k` repeats, `rounds` each, from running counter `counter`. */
  function RepeatEvents(cfg: LoopConfig, s: TrainingSchedule, betaMul: int, rounds: nat, counter: nat, k: nat): seq<Event>
    requires k == 0 || !cfg.lazyRegularization || cfg.dRegInterval > 0
  {
    if k == 0 then []
    else RepeatEvents(cfg, s, betaMul, rounds, counter, k - 1)
         + seq(rounds, _ => RoundEvent(cfg, s, betaMul, counter + k - 1))
  }

  /** A snapshot with this cadence is due at this tick. */
  predicate SnapshotDue(cadence: Option<nat>, tick: int, done: bool)
    requires cadence != Some(0)
  {
    cadence.Some? && (tick % cadence.value == 0 || done)
  }

  /** The maintenance condition, checked after the repeats with the updated image count. */
  predicate TickDue(cfg: LoopConfig, s: TrainingSchedule, c: Counters)
  {
    c.curTick < 0 || c.curNimg as real >= c.tickStartNimg as real + s.tickKimg * 1000.0 || !Running(cfg, c)
  }

  /** The end of an iteration: a tick, its progress report and its snapshots, when one is due. */
  function Maintenance(cfg: LoopConfig, s: TrainingSchedule, c: Counters, events: seq<Event>): StepResult
  {
    var done := !Running(cfg, c);
    if !TickDue(cfg, s, c) then
      StepResult(Continue, c, events)
    else
      var c1 := c.(curTick := c.curTick + 1, tickStartNimg := c.curNimg);
      if c.curNimg == c.tickStartNimg then
        StepResult(Failed(ZeroTickProgress), c1, events)
      else
        var e1 := events + [Tick(c1.curTick, c.curNimg)];
        if cfg.imageSnapshotTicks == Some(0) then
          StepResult(Failed(ZeroSnapshotCadence), c1, e1)
        else
          var e2 := e1 + (if SnapshotDue(cfg.imageSnapshotTicks, c1.curTick, done) then [ImageSnapshot(c.curNimg / 1000)] else []);
          if cfg.networkSnapshotTicks == Some(0) then
            StepResult(Failed(ZeroSnapshotCadence), c1, e2)
          else
            var e3 := e2 + (if SnapshotDue(cfg.networkSnapshotTicks, c1.curTick, done) then [NetSnapshot(c.curNimg / 1000)] else []);
            StepResult(Continue, c1, e3)
  }

  /** The optimizer reset of an iteration, when one is due. */
  function ResetEvents(cfg: LoopConfig, s: TrainingSchedule, c: Counters): (es: seq<Event>)
    ensures es == [] || es == [ResetOpt]
    ensures !cfg.resetOptForNewLod ==> es == []
    ensures s.lod == c.prevLod ==> es == []
  {
    if cfg.resetOptForNewLod && LodBandChanged(s.lod, c.prevLod) then [ResetOpt] else []
  }

  /** The repeats of an iteration can run: the configuration raises no exception on the way. */
  predicate Trainable(cfg: LoopConfig, s: TrainingSchedule)
  {
    && s.minibatchGpu * cfg.numGpus > 0
    && s.minibatchSize % (s.minibatchGpu * cfg.numGpus) == 0
    && !(cfg.minibatchRepeats > 0 && cfg.lazyRegularization && cfg.dRegInterval == 0)
  }

  /** The training rounds of all the repeats of an iteration. */
  function TrainEvents(cfg: LoopConfig, s: TrainingSchedule, c: Counters): seq<Event>
    requires Trainable(cfg, s)
  {
    RepeatEvents(cfg, s, GsBetaMul(cfg, c.curNimg), s.minibatchSize / (s.minibatchGpu * cfg.numGpus),
                 c.runningMbCounter, cfg.minibatchRepeats)
  }

  /** The counters after the repeats of an iteration, before maintenance. */
  function AfterRepeats(cfg: LoopConfig, s: TrainingSchedule, c: Counters): Counters
  {
    c.(prevLod := s.lod,
       curNimg := c.curNimg + cfg.minibatchRepeats * s.minibatchSize,
       runningMbCounter := c.runningMbCounter + cfg.minibatchRepeats)
  }

  /** One pass of the main loop: the loop test, the stop poll, and the body. */
  function Iteration(cfg: LoopConfig, c: Counters, shouldStop: bool): StepResult
  {
    if !Running(cfg, c) then
      StepResult(Completed, c, [])
    else if shouldStop then
      StepResult(Stopped, c, [])
    else
      match Evaluate(cfg.schedule, cfg.resolutionLog2, c.curNimg)
      case Err(_) => StepResult(Failed(BadInitialResolution), c, [])
      case Ok(s) =>
        var gpuBatch := s.minibatchGpu * cfg.numGpus;
        if gpuBatch == 0 then
          StepResult(Failed(ZeroGpuBatch), c, [])
        else if s.minibatchSize % gpuBatch != 0 then
          StepResult(Failed(IndivisibleMinibatch), c, [])
        else if cfg.minibatchRepeats > 0 && cfg.lazyRegularization && cfg.dRegInterval == 0 then
          StepResult(Failed(ZeroRegInterval), c.(prevLod := s.lod), ResetEvents(cfg, s, c))
        else
          Maintenance(cfg, s, AfterRepeats(cfg, s, c), ResetEvents(cfg, s, c) + TrainEvents(cfg, s, c))
  }

  /** The poll answer of the next pass: a poll past the end of `stops` asks to stop. */
  function Poll(stops: seq<bool>): bool
  {
    if stops == [] then true else stops[0]
  }

  /**
   * The passes of the main loop from counters `c`, polled with `stops` in
   * order, until one of them leaves the loop: its outcome, the counters it
   * leaves and all the events of all the passes.
   */
  function Loop(cfg: LoopConfig, c: Counters, stops: seq<bool>): StepResult
    decreases |stops|
  {
    var r := Iteration(cfg, c, Poll(stops));
    if r.outcome != Continue || stops == [] then r
    else
      var rest := Loop(cfg, r.next, stops[1..]);
      StepResult(rest.outcome, rest.next, r.events + rest.events)
  }
}
