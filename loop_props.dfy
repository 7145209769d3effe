/**
 * What one iteration of the main training loop guarantees: progress of the
 * image count, the optimizer-reset rule, the tick and snapshot cadence, the
 * lazy-regularization cadence and the moving-average gate.
 */
module LoopProperties {
  import opened Schedule
  import opened LoopSpec

  /** The number of training rounds in an event log. */
  function TrainRounds(es: seq<Event>): nat
  {
    if es == [] then 0
    else TrainRounds(es[..|es| - 1]) + (if es[|es| - 1].TrainRound? then 1 else 0)
  }

  lemma {:induction false} TrainRoundsAppend(a: seq<Event>, b: seq<Event>)
    ensures TrainRounds(a + b) == TrainRounds(a) + TrainRounds(b)
    decreases |b|
  {
    if b != [] {
      assert (a + b)[..|a + b| - 1] == a + b[..|b| - 1];
      TrainRoundsAppend(a, b[..|b| - 1]);
    } else {
      assert a + b == a;
    }
  }

  lemma {:induction false} TrainRoundsOfRounds(es: seq<Event>)
    requires forall i :: 0 <= i < |es| ==> es[i].TrainRound?
    ensures TrainRounds(es) == |es|
    decreases |es|
  {
    if es != [] {
      TrainRoundsOfRounds(es[..|es| - 1]);
    }
  }

  lemma {:induction false} TrainRoundsNone(es: seq<Event>)
    requires forall i :: 0 <= i < |es| ==> !es[i].TrainRound?
    ensures TrainRounds(es) == 0
    decreases |es|
  {
    if es != [] {
      TrainRoundsNone(es[..|es| - 1]);
    }
  }

  lemma MulMonotone(a: nat, b: nat, m: nat)
    requires a <= b
    ensures a * m <= b * m
  {
    assert (b - a) * m >= 0;
  }

  lemma DivOfBlock(i: nat, q: nat, r: nat)
    requires r > 0 && q * r <= i < q * r + r
    ensures i / r == q
  {
    var d := i / r;
    assert i == d * r + i % r && 0 <= i % r < r;
    if d < q {
      MulMonotone(d + 1, q, r);
    } else if d > q {
      MulMonotone(q + 1, d, r);
    }
  }

  /**
   * The rounds of `k` repeats: `k * rounds` training rounds, the rounds of
   * repeat `j` all carrying the regularization flag of running counter
   * `counter + j`.
   */
  lemma {:induction false} RepeatEventsShape(cfg: LoopConfig, s: TrainingSchedule, betaMul: int, rounds: nat, counter: nat, k: nat)
    requires k == 0 || !cfg.lazyRegularization || cfg.dRegInterval > 0
    ensures |RepeatEvents(cfg, s, betaMul, rounds, counter, k)| == k * rounds
    ensures forall i :: 0 <= i < |RepeatEvents(cfg, s, betaMul, rounds, counter, k)| ==>
      && k > 0 && rounds > 0
      && RepeatEvents(cfg, s, betaMul, rounds, counter, k)[i] == RoundEvent(cfg, s, betaMul, counter + i / rounds)
    ensures TrainRounds(RepeatEvents(cfg, s, betaMul, rounds, counter, k)) == k * rounds
    decreases k
  {
    var es := RepeatEvents(cfg, s, betaMul, rounds, counter, k);
    if k > 0 {
      RepeatEventsShape(cfg, s, betaMul, rounds, counter, k - 1);
      var prefix := RepeatEvents(cfg, s, betaMul, rounds, counter, k - 1);
      assert |es| == (k - 1) * rounds + rounds;
      if rounds > 0 {
        forall i | 0 <= i < |es|
          ensures es[i] == RoundEvent(cfg, s, betaMul, counter + i / rounds)
        {
          if i >= |prefix| {
            DivOfBlock(i, k - 1, rounds);
          }
        }
      }
      TrainRoundsOfRounds(es);
    }
  }

  /** Iterations that leave the loop change nothing and emit nothing. */
  lemma ExitRule(cfg: LoopConfig, c: Counters, shouldStop: bool)
    ensures var r := Iteration(cfg, c, shouldStop);
      && (r.outcome == Completed <==> !Running(cfg, c))
      && (r.outcome == Stopped <==> Running(cfg, c) && shouldStop)
      && (r.outcome in {Completed, Stopped} ==> r.next == c && r.events == [])
  {
  }

  /** The shape of an iteration that completes its body. */
  lemma ContinueUnfold(cfg: LoopConfig, c: Counters, shouldStop: bool)
    requires Iteration(cfg, c, shouldStop).outcome == Continue
    ensures Running(cfg, c) && !shouldStop
    ensures Evaluate(cfg.schedule, cfg.resolutionLog2, c.curNimg).Ok?
    ensures var s := Evaluate(cfg.schedule, cfg.resolutionLog2, c.curNimg).value;
      && Trainable(cfg, s)
      && Iteration(cfg, c, shouldStop)
         == Maintenance(cfg, s, AfterRepeats(cfg, s, c), ResetEvents(cfg, s, c) + TrainEvents(cfg, s, c))
  {
  }

  /**
   * A completed iteration shows `minibatch_repeats * minibatch_size` more
   * images, advances the running minibatch counter by `minibatch_repeats`, and
   * runs `minibatch_size / (minibatch_gpu * num_gpus)` rounds per repeat.
   */
  lemma IterationProgress(cfg: LoopConfig, c: Counters, shouldStop: bool)
    requires Iteration(cfg, c, shouldStop).outcome == Continue
    ensures Running(cfg, c) && !shouldStop
    ensures Evaluate(cfg.schedule, cfg.resolutionLog2, c.curNimg).Ok?
    ensures var s := Evaluate(cfg.schedule, cfg.resolutionLog2, c.curNimg).value;
      var r := Iteration(cfg, c, shouldStop);
      && s.minibatchGpu * cfg.numGpus > 0
      && s.minibatchSize % (s.minibatchGpu * cfg.numGpus) == 0
      && r.next.curNimg == c.curNimg + cfg.minibatchRepeats * s.minibatchSize
      && r.next.runningMbCounter == c.runningMbCounter + cfg.minibatchRepeats
      && r.next.prevLod == s.lod
      && TrainRounds(r.events) == cfg.minibatchRepeats * (s.minibatchSize / (s.minibatchGpu * cfg.numGpus))
  {
    ContinueUnfold(cfg, c, shouldStop);
    var s := Evaluate(cfg.schedule, cfg.resolutionLog2, c.curNimg).value;
    var r := Iteration(cfg, c, shouldStop);
    var reset, trained := ResetEvents(cfg, s, c), TrainEvents(cfg, s, c);
    RepeatEventsShape(cfg, s, GsBetaMul(cfg, c.curNimg), s.minibatchSize / (s.minibatchGpu * cfg.numGpus),
                      c.runningMbCounter, cfg.minibatchRepeats);
    MaintenanceShape(cfg, s, AfterRepeats(cfg, s, c), reset + trained);
    MaintenanceRounds(cfg, s, AfterRepeats(cfg, s, c), reset + trained);
    TrainRoundsAppend(reset, trained);
    TrainRoundsNone(reset);
  }

  /** Maintenance only appends ticks and snapshots, and only touches the tick counters. */
  lemma MaintenanceShape(cfg: LoopConfig, s: TrainingSchedule, c: Counters, events: seq<Event>)
    ensures var r := Maintenance(cfg, s, c, events);
      && |events| <= |r.events| && r.events[..|events|] == events
      && (forall i :: |events| <= i < |r.events| ==>
            r.events[i].Tick? || r.events[i].ImageSnapshot? || r.events[i].NetSnapshot?)
      && r.next.curNimg == c.curNimg && r.next.prevLod == c.prevLod
      && r.next.runningMbCounter == c.runningMbCounter
      && (r.outcome.Continue? || r.outcome.Failed?)
  {
  }

  /** Maintenance runs no training round. */
  lemma MaintenanceRounds(cfg: LoopConfig, s: TrainingSchedule, c: Counters, events: seq<Event>)
    ensures TrainRounds(Maintenance(cfg, s, c, events).events) == TrainRounds(events)
  {
    MaintenanceShape(cfg, s, c, events);
    var r := Maintenance(cfg, s, c, events);
    var tail := r.events[|events|..];
    assert r.events == events + tail;
    TrainRoundsAppend(events, tail);
    TrainRoundsNone(tail);
  }

  /**
   * The iteration gets past the divisibility assertion: it is running, was
   * not asked to stop, and its schedule splits evenly over the GPUs.
   */
  predicate PastAssertion(cfg: LoopConfig, c: Counters, shouldStop: bool)
  {
    && Running(cfg, c) && !shouldStop
    && Evaluate(cfg.schedule, cfg.resolutionLog2, c.curNimg).Ok?
    && var s := Evaluate(cfg.schedule, cfg.resolutionLog2, c.curNimg).value;
       s.minibatchGpu * cfg.numGpus > 0 && s.minibatchSize % (s.minibatchGpu * cfg.numGpus) == 0
  }

  /**
   * When `reset_opt_for_new_lod` is set, an iteration that gets past the
   * divisibility assertion resets the optimizers exactly when the integer
   * band of the level of detail changed since the previous iteration, whether
   * or not it raises later on; when it is not set, never.
   */
  lemma OptimizerReset(cfg: LoopConfig, c: Counters, shouldStop: bool)
    requires PastAssertion(cfg, c, shouldStop)
    ensures var s := Evaluate(cfg.schedule, cfg.resolutionLog2, c.curNimg).value;
      ResetOpt in Iteration(cfg, c, shouldStop).events <==> cfg.resetOptForNewLod && LodBandChanged(s.lod, c.prevLod)
  {
    var s := Evaluate(cfg.schedule, cfg.resolutionLog2, c.curNimg).value;
    var r := Iteration(cfg, c, shouldStop);
    var reset := ResetEvents(cfg, s, c);
    if Trainable(cfg, s) {
      var trained := TrainEvents(cfg, s, c);
      RepeatEventsAreRounds(cfg, s, GsBetaMul(cfg, c.curNimg), s.minibatchSize / (s.minibatchGpu * cfg.numGpus),
                            c.runningMbCounter, cfg.minibatchRepeats);
      assert ResetOpt !in trained;
      assert r == Maintenance(cfg, s, AfterRepeats(cfg, s, c), reset + trained);
      MaintenanceShape(cfg, s, AfterRepeats(cfg, s, c), reset + trained);
      var tail := r.events[|reset + trained|..];
      assert r.events == reset + trained + tail;
      assert ResetOpt !in tail by {
        forall i | 0 <= i < |tail|
          ensures tail[i] != ResetOpt
        {
          assert tail[i] == r.events[|reset + trained| + i];
        }
      }
    } else {
      assert r.events == reset;
    }
  }

  /**
   * The first iteration resets the optimizers (when resets are enabled) as
   * soon as it gets past the divisibility assertion: `prev_lod` starts at -1.
   */
  lemma FirstIterationResets(cfg: LoopConfig, shouldStop: bool)
    requires cfg.resumeKimg >= 0.0 && cfg.resetOptForNewLod
    requires PastAssertion(cfg, InitialCounters(cfg), shouldStop)
    ensures ResetOpt in Iteration(cfg, InitialCounters(cfg), shouldStop).events
  {
    var c := InitialCounters(cfg);
    OptimizerReset(cfg, c, shouldStop);
    var s := Evaluate(cfg.schedule, cfg.resolutionLog2, c.curNimg).value;
    assert s.lod >= 0.0;
    assert (-1.0).Floor == -1;
    assert LodBandChanged(s.lod, c.prevLod);
  }

  /** An iteration that completes got past the divisibility assertion. */
  lemma ContinuePastAssertion(cfg: LoopConfig, c: Counters, shouldStop: bool)
    requires Iteration(cfg, c, shouldStop).outcome == Continue
    ensures PastAssertion(cfg, c, shouldStop)
  {
    ContinueUnfold(cfg, c, shouldStop);
  }

  /** The repeats emit nothing but training rounds. */
  lemma {:induction false} RepeatEventsAreRounds(cfg: LoopConfig, s: TrainingSchedule, betaMul: int, rounds: nat, counter: nat, k: nat)
    requires k == 0 || !cfg.lazyRegularization || cfg.dRegInterval > 0
    ensures forall i :: 0 <= i < |RepeatEvents(cfg, s, betaMul, rounds, counter, k)| ==>
      RepeatEvents(cfg, s, betaMul, rounds, counter, k)[i].TrainRound?
    decreases k
  {
    if k > 0 {
      RepeatEventsAreRounds(cfg, s, betaMul, rounds, counter, k - 1);
      var prefix := RepeatEvents(cfg, s, betaMul, rounds, counter, k - 1);
      var es := RepeatEvents(cfg, s, betaMul, rounds, counter, k);
      forall i | 0 <= i < |es|
        ensures es[i].TrainRound?
      {
        if i < |prefix| {
          assert es[i] == prefix[i];
        }
      }
    }
  }

  /** Only optimizer resets and training rounds: what an iteration emits before its maintenance. */
  predicate Quiet(es: seq<Event>)
  {
    forall i :: 0 <= i < |es| ==> es[i].ResetOpt? || es[i].TrainRound?
  }

  lemma BodyIsQuiet(cfg: LoopConfig, s: TrainingSchedule, c: Counters)
    requires Trainable(cfg, s)
    ensures Quiet(ResetEvents(cfg, s, c) + TrainEvents(cfg, s, c))
  {
    var reset: seq<Event>, trained: seq<Event> := ResetEvents(cfg, s, c), TrainEvents(cfg, s, c);
    RepeatEventsAreRounds(cfg, s, GsBetaMul(cfg, c.curNimg), s.minibatchSize / (s.minibatchGpu * cfg.numGpus),
                          c.runningMbCounter, cfg.minibatchRepeats);
    forall i | 0 <= i < |reset + trained|
      ensures (reset + trained)[i].ResetOpt? || (reset + trained)[i].TrainRound?
    {
      if i >= |reset| {
        assert (reset + trained)[i] == trained[i - |reset|];
      }
    }
  }

  /** A maintenance step that raises nothing: either nothing happens, or a tick with its due snapshots. */
  lemma MaintenanceContinue(cfg: LoopConfig, s: TrainingSchedule, c: Counters, events: seq<Event>)
    requires Maintenance(cfg, s, c, events).outcome == Continue
    ensures var r := Maintenance(cfg, s, c, events);
      var done := !Running(cfg, c);
      if TickDue(cfg, s, c) then
        && c.curNimg != c.tickStartNimg
        && cfg.imageSnapshotTicks != Some(0) && cfg.networkSnapshotTicks != Some(0)
        && r.next == c.(curTick := c.curTick + 1, tickStartNimg := c.curNimg)
        && r.events == events + [Tick(c.curTick + 1, c.curNimg)]
             + (if SnapshotDue(cfg.imageSnapshotTicks, c.curTick + 1, done) then [ImageSnapshot(c.curNimg / 1000)] else [])
             + (if SnapshotDue(cfg.networkSnapshotTicks, c.curTick + 1, done) then [NetSnapshot(c.curNimg / 1000)] else [])
      else
        r.next == c && r.events == events
  {
  }

  /**
   * A tick fires on the first iteration, once `tick_kimg` thousand images
   * have been shown since the last tick, and on the last iteration. It raises
   * the tick counter by exactly one, restarts the tick interval at the current
   * image count and reports progress; otherwise neither counter moves and
   * nothing is reported or saved.
   */
  lemma TickRule(cfg: LoopConfig, c: Counters, shouldStop: bool)
    requires Iteration(cfg, c, shouldStop).outcome == Continue
    ensures Evaluate(cfg.schedule, cfg.resolutionLog2, c.curNimg).Ok?
    ensures var s := Evaluate(cfg.schedule, cfg.resolutionLog2, c.curNimg).value;
      var r := Iteration(cfg, c, shouldStop);
      var n := r.next.curNimg;
      var fired := c.curTick < 0 || n as real >= c.tickStartNimg as real + s.tickKimg * 1000.0 || !Running(cfg, r.next);
      && (fired ==>
            && r.next.curTick == c.curTick + 1
            && r.next.tickStartNimg == n
            && n != c.tickStartNimg
            && Tick(r.next.curTick, n) in r.events)
      && (!fired ==>
            && r.next.curTick == c.curTick
            && r.next.tickStartNimg == c.tickStartNimg
            && forall e :: e in r.events ==> !e.Tick? && !e.ImageSnapshot? && !e.NetSnapshot?)
  {
    ContinueUnfold(cfg, c, shouldStop);
    var s := Evaluate(cfg.schedule, cfg.resolutionLog2, c.curNimg).value;
    var body := ResetEvents(cfg, s, c) + TrainEvents(cfg, s, c);
    BodyIsQuiet(cfg, s, c);
    MaintenanceContinue(cfg, s, AfterRepeats(cfg, s, c), body);
  }

  /** The snapshots of a maintenance step that raises nothing, after a body without any. */
  lemma MaintenanceSnapshots(cfg: LoopConfig, s: TrainingSchedule, c: Counters, events: seq<Event>)
    requires Quiet(events) && Maintenance(cfg, s, c, events).outcome == Continue
    ensures var r := Maintenance(cfg, s, c, events);
      var n := c.curNimg;
      var done := !Running(cfg, c);
      var fired := r.next.curTick != c.curTick;
      && (fired ==> cfg.imageSnapshotTicks != Some(0) && cfg.networkSnapshotTicks != Some(0))
      && (ImageSnapshot(n / 1000) in r.events <==> fired && SnapshotDue(cfg.imageSnapshotTicks, r.next.curTick, done))
      && (NetSnapshot(n / 1000) in r.events <==> fired && SnapshotDue(cfg.networkSnapshotTicks, r.next.curTick, done))
      && (forall e :: e in r.events && e.ImageSnapshot? ==> e == ImageSnapshot(n / 1000))
      && (forall e :: e in r.events && e.NetSnapshot? ==> e == NetSnapshot(n / 1000))
      && (done ==> fired)
  {
    MaintenanceContinue(cfg, s, c, events);
  }

  /**
   * At a tick, an image (network) snapshot of the current kimg is saved
   * exactly when its cadence is configured and divides the tick counter, or
   * training is done; the last iteration always saves every configured kind.
   */
  lemma SnapshotRule(cfg: LoopConfig, c: Counters, shouldStop: bool)
    requires Iteration(cfg, c, shouldStop).outcome == Continue
    ensures var r := Iteration(cfg, c, shouldStop);
      var n := r.next.curNimg;
      var done := !Running(cfg, r.next);
      var fired := r.next.curTick != c.curTick;
      && (fired ==> cfg.imageSnapshotTicks != Some(0) && cfg.networkSnapshotTicks != Some(0))
      && (ImageSnapshot(n / 1000) in r.events <==> fired && SnapshotDue(cfg.imageSnapshotTicks, r.next.curTick, done))
      && (NetSnapshot(n / 1000) in r.events <==> fired && SnapshotDue(cfg.networkSnapshotTicks, r.next.curTick, done))
      && (forall e :: e in r.events && e.ImageSnapshot? ==> e == ImageSnapshot(n / 1000))
      && (forall e :: e in r.events && e.NetSnapshot? ==> e == NetSnapshot(n / 1000))
      && (done ==> fired
                   && (cfg.imageSnapshotTicks.Some? ==> ImageSnapshot(n / 1000) in r.events)
                   && (cfg.networkSnapshotTicks.Some? ==> NetSnapshot(n / 1000) in r.events))
  {
    ContinueUnfold(cfg, c, shouldStop);
    var s := Evaluate(cfg.schedule, cfg.resolutionLog2, c.curNimg).value;
    var a := AfterRepeats(cfg, s, c);
    var body := ResetEvents(cfg, s, c) + TrainEvents(cfg, s, c);
    BodyIsQuiet(cfg, s, c);
    MaintenanceShape(cfg, s, a, body);
    MaintenanceSnapshots(cfg, s, a, body);
    var r := Maintenance(cfg, s, a, body);
    assert r.next.curNimg == a.curNimg && r.next.curTick != c.curTick <==> r.next.curTick != a.curTick;
    assert Running(cfg, r.next) == Running(cfg, a);
  }

  /** Maintenance only appends to the events before it, whatever they are. */
  lemma MaintenancePrefix(cfg: LoopConfig, s: TrainingSchedule, c: Counters, pre: seq<Event>, events: seq<Event>)
    ensures var r := Maintenance(cfg, s, c, events);
      Maintenance(cfg, s, c, pre + events) == r.(events := pre + r.events)
  {
    var e1 := events + [Tick(c.curTick + 1, c.curNimg)];
    assert (pre + events) + [Tick(c.curTick + 1, c.curNimg)] == pre + e1;
    if cfg.imageSnapshotTicks != Some(0) {
      var im := if SnapshotDue(cfg.imageSnapshotTicks, c.curTick + 1, !Running(cfg, c)) then [ImageSnapshot(c.curNimg / 1000)] else [];
      assert (pre + e1) + im == pre + (e1 + im);
      if cfg.networkSnapshotTicks != Some(0) {
        var nt := if SnapshotDue(cfg.networkSnapshotTicks, c.curTick + 1, !Running(cfg, c)) then [NetSnapshot(c.curNimg / 1000)] else [];
        assert (pre + e1 + im) + nt == pre + (e1 + im + nt);
      }
    }
  }

  /** Maintenance moves the tick counter by at most one and restarts the interval at the current count. */
  lemma MaintenanceCounters(cfg: LoopConfig, s: TrainingSchedule, c: Counters, events: seq<Event>)
    ensures var r := Maintenance(cfg, s, c, events);
      && c.curTick <= r.next.curTick <= c.curTick + 1
      && (r.next.tickStartNimg == c.tickStartNimg || r.next.tickStartNimg == c.curNimg)
      && (r.next.curTick == c.curTick ==> r.next == c)
  {
  }

  /**
   * No iteration moves a counter backwards: the image count, the tick
   * counter and the running minibatch counter never decrease, and the start
   * of the current tick interval never passes the image count.
   */
  lemma CountersMonotone(cfg: LoopConfig, c: Counters, shouldStop: bool)
    ensures var r := Iteration(cfg, c, shouldStop);
      && c.curNimg <= r.next.curNimg
      && c.curTick <= r.next.curTick <= c.curTick + 1
      && c.runningMbCounter <= r.next.runningMbCounter
      && (c.tickStartNimg <= c.curNimg ==> c.tickStartNimg <= r.next.tickStartNimg <= r.next.curNimg)
  {
    var r := Iteration(cfg, c, shouldStop);
    if r.outcome == Continue || r.outcome == Failed(ZeroTickProgress) || r.outcome == Failed(ZeroSnapshotCadence) {
      if Running(cfg, c) && !shouldStop && Evaluate(cfg.schedule, cfg.resolutionLog2, c.curNimg).Ok? {
        var s := Evaluate(cfg.schedule, cfg.resolutionLog2, c.curNimg).value;
        if Trainable(cfg, s) {
          var body := ResetEvents(cfg, s, c) + TrainEvents(cfg, s, c);
          MaintenanceCounters(cfg, s, AfterRepeats(cfg, s, c), body);
          MaintenanceShape(cfg, s, AfterRepeats(cfg, s, c), body);
        }
      }
    }
  }

  /** The configured global minibatch sizes are all positive. */
  predicate PositiveMinibatches(cfg: Config)
  {
    cfg.minibatchSizeBase >= 1 && forall res :: res in cfg.minibatchSizeDict ==> cfg.minibatchSizeDict[res] >= 1
  }

  /** Every iteration that completes shows at least one image per repeat. */
  lemma MinimumProgress(cfg: LoopConfig, c: Counters, shouldStop: bool)
    requires Iteration(cfg, c, shouldStop).outcome == Continue
    requires PositiveMinibatches(cfg.schedule)
    ensures Iteration(cfg, c, shouldStop).next.curNimg >= c.curNimg + cfg.minibatchRepeats
  {
    IterationProgress(cfg, c, shouldStop);
    var s := Evaluate(cfg.schedule, cfg.resolutionLog2, c.curNimg).value;
    MulMonotone(1, s.minibatchSize, cfg.minibatchRepeats);
  }

  /**
   * A schedule with a global minibatch of 0 stalls the loop: a pass that is
   * not due for a tick shows no image, runs no training round and leaves the
   * image count and the tick counters where they were, so the next pass, polled
   * the same way, again continues without a tick and without progress. Only
   * the running minibatch counter and `prev_lod` move.
   */
  lemma ZeroMinibatchStalls(cfg: LoopConfig, c: Counters, shouldStop: bool)
    requires Iteration(cfg, c, shouldStop).outcome == Continue
    requires Evaluate(cfg.schedule, cfg.resolutionLog2, c.curNimg).Ok?
    requires var s := Evaluate(cfg.schedule, cfg.resolutionLog2, c.curNimg).value;
      s.minibatchSize == 0 && c.curTick >= 0 && c.curNimg as real < c.tickStartNimg as real + s.tickKimg * 1000.0
    ensures var s := Evaluate(cfg.schedule, cfg.resolutionLog2, c.curNimg).value;
      var r := Iteration(cfg, c, shouldStop);
      && r.next == c.(prevLod := s.lod, runningMbCounter := c.runningMbCounter + cfg.minibatchRepeats)
      && TrainRounds(r.events) == 0
      && Running(cfg, r.next)
      && Iteration(cfg, r.next, shouldStop).outcome == Continue
  {
    IterationProgress(cfg, c, shouldStop);
    var s := Evaluate(cfg.schedule, cfg.resolutionLog2, c.curNimg).value;
    var r := Iteration(cfg, c, shouldStop);
    var a := AfterRepeats(cfg, s, c);
    assert a.curNimg == c.curNimg;
    assert !TickDue(cfg, s, a);
    assert r.next == a;
    assert Evaluate(cfg.schedule, cfg.resolutionLog2, a.curNimg).value == s;
    assert !TickDue(cfg, s, AfterRepeats(cfg, s, a));
  }

  /** An iteration never writes the final network; that happens once, after the loop. */
  lemma NoFinalInIteration(cfg: LoopConfig, c: Counters, shouldStop: bool)
    ensures Final !in Iteration(cfg, c, shouldStop).events
  {
    var r := Iteration(cfg, c, shouldStop);
    if Running(cfg, c) && !shouldStop && Evaluate(cfg.schedule, cfg.resolutionLog2, c.curNimg).Ok? {
      var s := Evaluate(cfg.schedule, cfg.resolutionLog2, c.curNimg).value;
      if Trainable(cfg, s) {
        var body := ResetEvents(cfg, s, c) + TrainEvents(cfg, s, c);
        BodyIsQuiet(cfg, s, c);
        MaintenanceShape(cfg, s, AfterRepeats(cfg, s, c), body);
        assert r == Maintenance(cfg, s, AfterRepeats(cfg, s, c), body);
        forall i | 0 <= i < |r.events|
          ensures r.events[i] != Final
        {
          if i < |body| {
            assert r.events[i] == r.events[..|body|][i] == body[i];
          }
        }
      }
    }
  }

  lemma MulSmall(a: int, d: int)
    requires d > 0 && -d < a * d < d
    ensures a == 0
  {
  }

  /** The remainder is determined by any decomposition with a remainder in range. */
  lemma ModUnique(x: int, d: int, q: int, m: int)
    requires d > 0 && x == q * d + m && 0 <= m < d
    ensures x % d == m && x / d == q
  {
    assert x == (x / d) * d + x % d && 0 <= x % d < d;
    assert (q - x / d) * d == x % d - m;
    MulSmall(q - x / d, d);
  }

  /**
   * With lazy regularization, D is regularized on every `D_reg_interval`-th
   * repeat: the flag repeats with that period and is set exactly once in any
   * window of that many consecutive repeats. Without it, never.
   */
  lemma DRegCadence(cfg: LoopConfig, n: nat)
    requires cfg.lazyRegularization ==> cfg.dRegInterval > 0
    ensures !cfg.lazyRegularization ==> !RunDReg(cfg, n)
    ensures cfg.lazyRegularization ==> RunDReg(cfg, n + cfg.dRegInterval) == RunDReg(cfg, n)
    ensures cfg.lazyRegularization ==> exists j :: n <= j < n + cfg.dRegInterval && RunDReg(cfg, j)
    ensures forall i, j :: n <= i < j < n + cfg.dRegInterval && RunDReg(cfg, i) ==> !RunDReg(cfg, j)
  {
    if cfg.lazyRegularization {
      var d := cfg.dRegInterval;
      ModPeriodic(n, d);
      var j := NextMultiple(n, d);
      assert RunDReg(cfg, j);
      forall i, k | n <= i < k < n + d && RunDReg(cfg, i)
        ensures !RunDReg(cfg, k)
      {
        ModGap(i, k, d);
      }
    }
  }

  lemma ModPeriodic(n: nat, d: nat)
    requires d > 0
    ensures (n + d) % d == n % d
  {
    assert n == (n / d) * d + n % d;
    ModUnique(n + d, d, n / d + 1, n % d);
  }

  /** The first multiple of `d` at or after `n`. */
  lemma NextMultiple(n: nat, d: nat) returns (j: nat)
    requires d > 0
    ensures n <= j < n + d && j % d == 0
  {
    var q, m := n / d, n % d;
    assert n == q * d + m;
    j := if m == 0 then n else n + (d - m);
    ModUnique(j, d, if m == 0 then q else q + 1, 0);
  }

  /** Two multiples of `d` are at least `d` apart. */
  lemma ModGap(i: nat, k: nat, d: nat)
    requires d > 0 && i < k < i + d && i % d == 0
    ensures k % d != 0
  {
    if k % d == 0 {
      assert i == (i / d) * d && k == (k / d) * d;
      assert (k / d - i / d) * d == k - i;
      MulSmall(k / d - i / d, d);
    }
  }

  /** Whether the moving average of G runs: from `ema_start_kimg` (by default the half-life) on, and from then on for good. */
  lemma EmaGate(cfg: LoopConfig, n1: nat, n2: nat)
    requires n1 <= n2
    ensures GsBetaMul(cfg, n1) == 1 <==> n1 as real >= EmaStartKimg(cfg) * 1000.0
    ensures GsBetaMul(cfg, n1) != 1 ==> GsBetaMul(cfg, n1) == 0
    ensures cfg.emaStartKimg.None? ==> EmaStartKimg(cfg) == cfg.gEmaKimg
    ensures GsBetaMul(cfg, n1) <= GsBetaMul(cfg, n2)
  {
  }

  lemma DivBelow(i: nat, k: nat, r: nat)
    requires r > 0 && i < k * r
    ensures i / r < k
  {
    assert i == (i / r) * r + i % r;
    if i / r >= k {
      MulMonotone(k, i / r, r);
    }
  }

  /** Every training round of `k` repeats carries the running counter of one of them. */
  lemma RepeatEventsFeed(cfg: LoopConfig, s: TrainingSchedule, betaMul: int, rounds: nat, counter: nat, k: nat)
    requires k == 0 || !cfg.lazyRegularization || cfg.dRegInterval > 0
    ensures forall e :: e in RepeatEvents(cfg, s, betaMul, rounds, counter, k) ==>
      exists j :: counter <= j < counter + k && e == RoundEvent(cfg, s, betaMul, j)
  {
    RepeatEventsShape(cfg, s, betaMul, rounds, counter, k);
    RoundsFeed(cfg, s, betaMul, rounds, counter, k, RepeatEvents(cfg, s, betaMul, rounds, counter, k));
  }

  lemma RoundsFeed(cfg: LoopConfig, s: TrainingSchedule, betaMul: int, rounds: nat, counter: nat, k: nat, es: seq<Event>)
    requires k == 0 || !cfg.lazyRegularization || cfg.dRegInterval > 0
    requires |es| == k * rounds
    requires forall i :: 0 <= i < |es| ==> k > 0 && rounds > 0 && es[i] == RoundEvent(cfg, s, betaMul, counter + i / rounds)
    ensures forall e :: e in es ==> exists j :: counter <= j < counter + k && e == RoundEvent(cfg, s, betaMul, j)
  {
    forall t | 0 <= t < |es|
      ensures exists j :: counter <= j < counter + k && es[t] == RoundEvent(cfg, s, betaMul, j)
    {
      DivBelow(t, k, rounds);
      var j := counter + t / rounds;
      assert es[t] == RoundEvent(cfg, s, betaMul, j);
    }
  }

  /**
   * Every training round of an iteration is fed the iteration's schedule and
   * moving-average multiplier, and the regularization flag of one of the
   * iteration's repeats.
   */
  lemma TrainRoundFeed(cfg: LoopConfig, c: Counters, shouldStop: bool)
    requires Iteration(cfg, c, shouldStop).outcome == Continue
    ensures Evaluate(cfg.schedule, cfg.resolutionLog2, c.curNimg).Ok?
    ensures cfg.minibatchRepeats > 0 && cfg.lazyRegularization ==> cfg.dRegInterval > 0
    ensures var s := Evaluate(cfg.schedule, cfg.resolutionLog2, c.curNimg).value;
      forall e :: e in Iteration(cfg, c, shouldStop).events && e.TrainRound? ==>
        && e.lod == s.lod && e.gLrate == s.gLrate && e.dLrate == s.dLrate
        && e.minibatchSize == s.minibatchSize && e.minibatchGpu == s.minibatchGpu
        && e.gsBetaMul == GsBetaMul(cfg, c.curNimg)
        && exists j :: c.runningMbCounter <= j < c.runningMbCounter + cfg.minibatchRepeats
                       && e.runDReg == RunDReg(cfg, j)
  {
    ContinueUnfold(cfg, c, shouldStop);
    var s := Evaluate(cfg.schedule, cfg.resolutionLog2, c.curNimg).value;
    var r := Iteration(cfg, c, shouldStop);
    var reset, trained := ResetEvents(cfg, s, c), TrainEvents(cfg, s, c);
    RepeatEventsFeed(cfg, s, GsBetaMul(cfg, c.curNimg), s.minibatchSize / (s.minibatchGpu * cfg.numGpus),
                     c.runningMbCounter, cfg.minibatchRepeats);
    MaintenanceShape(cfg, s, AfterRepeats(cfg, s, c), reset + trained);
    assert r.events[..|reset + trained|] == reset + trained;
    forall e | e in r.events && e.TrainRound?
      ensures e in trained
    {
      var i :| 0 <= i < |r.events| && r.events[i] == e;
      assert i < |reset + trained|;
      assert e == (reset + trained)[i];
    }
  }

  /**
   * What is left of the loop after `k` passes that continued, from counters
   * `c`, with the events `done` already emitted: the whole loop is the rest
   * of it after `done`.
   */
  predicate LoopResumes(cfg: LoopConfig, c0: Counters, stops: seq<bool>, k: nat, c: Counters, done: seq<Event>)
  {
    k <= |stops| &&
    var rest := Loop(cfg, c, stops[k..]);
    Loop(cfg, c0, stops) == StepResult(rest.outcome, rest.next, done + rest.events)
  }

  /**
   * One more pass of a resumed loop: it either ends the loop, which then
   * ends where the pass does, or continues after a poll that did not ask to
   * stop, and the loop resumes after it.
   */
  lemma LoopAdvance(cfg: LoopConfig, c0: Counters, stops: seq<bool>, k: nat, c: Counters, done: seq<Event>)
    requires LoopResumes(cfg, c0, stops, k, c, done)
    ensures var stop := if k < |stops| then stops[k] else true;
      var r := Iteration(cfg, c, stop);
      && (r.outcome != Continue ==> Loop(cfg, c0, stops) == StepResult(r.outcome, r.next, done + r.events))
      && (r.outcome == Continue ==> k < |stops| && !stop && LoopResumes(cfg, c0, stops, k + 1, r.next, done + r.events))
  {
    var stop := if k < |stops| then stops[k] else true;
    var polls := stops[k..];
    assert Poll(polls) == stop;
    var r := Iteration(cfg, c, stop);
    if r.outcome != Continue {
      assert Loop(cfg, c, polls) == r;
    } else {
      assert polls[1..] == stops[k + 1..];
      var rest := Loop(cfg, r.next, stops[k + 1..]);
      assert Loop(cfg, c, polls) == StepResult(rest.outcome, rest.next, r.events + rest.events);
      assert done + (r.events + rest.events) == (done + r.events) + rest.events;
    }
  }

  /**
   * Where the loop stands after `passes` passes from counters `c0`, now at
   * counters `c` with `done` the events emitted so far: while it continues,
   * the polls so far did not ask to stop and the rest of the loop is still to
   * come; once it has left, it left where the whole loop does, on a poll
   * that asked to stop if it stopped.
   */
  predicate LoopAt(cfg: LoopConfig, c0: Counters, stops: seq<bool>, passes: nat, outcome: Outcome, c: Counters, done: seq<Event>)
  {
    && (outcome == Continue ==>
          passes <= |stops| && (forall j :: 0 <= j < passes ==> !stops[j]) && LoopResumes(cfg, c0, stops, passes, c, done))
    && (outcome != Continue ==>
          && passes >= 1 && passes - 1 <= |stops| && (forall j :: 0 <= j < passes - 1 ==> !stops[j])
          && (outcome == Stopped ==> passes > |stops| || stops[passes - 1])
          && Loop(cfg, c0, stops) == StepResult(outcome, c, done))
  }

  /** The next pass keeps `LoopAt`, polled with the next answer of `stops`, or told to stop past its end. */
  lemma LoopAtNext(cfg: LoopConfig, c0: Counters, stops: seq<bool>, passes: nat, c: Counters, done: seq<Event>)
    requires LoopAt(cfg, c0, stops, passes, Continue, c, done)
    ensures var r := Iteration(cfg, c, if passes < |stops| then stops[passes] else true);
      LoopAt(cfg, c0, stops, passes + 1, r.outcome, r.next, done + r.events)
  {
    var stop := if passes < |stops| then stops[passes] else true;
    LoopAdvance(cfg, c0, stops, passes, c, done);
    ExitRule(cfg, c, stop);
  }

  /**
   * Appending the final snapshot, unless the loop failed, to a log grown by
   * events without one: the old log is kept, and the final snapshot is there
   * exactly when the loop did not fail, once, as the last event.
   */
  lemma AppendFinal(log0: seq<Event>, events: seq<Event>, failed: bool)
    requires Final !in events
    ensures var log := log0 + events + (if failed then [] else [Final]);
      && |log0| <= |log| && log[..|log0|] == log0
      && (!failed <==> Final in log[|log0|..])
      && (!failed ==> log[|log| - 1] == Final && Final !in log[|log0|..|log| - 1])
  {
    var log := log0 + events + (if failed then [] else [Final]);
    assert log[..|log0|] == log0;
    assert log[|log0|..] == events + (if failed then [] else [Final]);
    if !failed {
      assert log[|log0|..|log| - 1] == events;
    }
  }

  /**
   * The loop always leaves: Completed with the image target reached, Stopped
   * while still short of it, or Failed.
   */
  lemma {:induction false} LoopExit(cfg: LoopConfig, c: Counters, stops: seq<bool>)
    ensures var r := Loop(cfg, c, stops);
      && r.outcome != Continue
      && (r.outcome == Completed ==> !Running(cfg, r.next))
      && (r.outcome == Stopped ==> Running(cfg, r.next))
    decreases |stops|
  {
    var r := Iteration(cfg, c, Poll(stops));
    ExitRule(cfg, c, Poll(stops));
    if r.outcome == Continue && stops != [] {
      LoopExit(cfg, r.next, stops[1..]);
    }
  }

  /**
   * Over the whole loop no counter moves backwards, the tick counter grows by
   * at most one per pass, and the final network is never written.
   */
  lemma {:induction false} LoopMonotone(cfg: LoopConfig, c: Counters, stops: seq<bool>)
    ensures var r := Loop(cfg, c, stops);
      && c.curNimg <= r.next.curNimg
      && c.curTick <= r.next.curTick <= c.curTick + |stops| + 1
      && c.runningMbCounter <= r.next.runningMbCounter
      && (c.tickStartNimg <= c.curNimg ==> c.tickStartNimg <= r.next.tickStartNimg <= r.next.curNimg)
      && Final !in r.events
    decreases |stops|
  {
    var r := Iteration(cfg, c, Poll(stops));
    CountersMonotone(cfg, c, Poll(stops));
    NoFinalInIteration(cfg, c, Poll(stops));
    if r.outcome == Continue && stops != [] {
      LoopMonotone(cfg, r.next, stops[1..]);
    }
  }

  /**
   * With at least one repeat and positive minibatch sizes, every pass shows
   * an image; so if the polls keep answering "go" for at least as many
   * passes as images remain, the loop is never stopped: it completes or raises.
   */
  lemma {:induction false} LoopNotStopped(cfg: LoopConfig, c: Counters, stops: seq<bool>)
    requires cfg.minibatchRepeats >= 1 && PositiveMinibatches(cfg.schedule)
    requires forall j :: 0 <= j < |stops| ==> !stops[j]
    requires cfg.totalKimg * 1000.0 <= (c.curNimg + |stops|) as real
    ensures Loop(cfg, c, stops).outcome != Stopped
    decreases |stops|
  {
    var r := Iteration(cfg, c, Poll(stops));
    ExitRule(cfg, c, Poll(stops));
    if r.outcome == Continue && stops != [] {
      MinimumProgress(cfg, c, Poll(stops));
      assert forall j :: 0 <= j < |stops[1..]| ==> !stops[1..][j] by {
        forall j | 0 <= j < |stops[1..]|
          ensures !stops[1..][j]
        {
          assert stops[1..][j] == stops[j + 1];
        }
      }
      LoopNotStopped(cfg, r.next, stops[1..]);
    }
  }
}
