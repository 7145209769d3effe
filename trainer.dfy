/**
 * The main training loop as the stateful object it is: the loop counters are
 * fields that each pass updates in place, and a ghost log records the events
 * the loop produces. Each pass is proved to do exactly what `LoopSpec.Iteration`
 * describes, so every property proved about `Iteration` holds of the loop.
 */
module Trainer {
  import opened Schedule
  import opened LoopSpec
  import opened LoopProperties

  class TrainingLoop {
    const cfg: LoopConfig
    var curNimg: nat
    var curTick: int
    var tickStartNimg: nat
    var prevLod: real
    var runningMbCounter: nat
    ghost var log: seq<Event>

    /** The loop counters as a value. */
    function State(): Counters
      reads this
    {
      Counters(curNimg, curTick, tickStartNimg, prevLod, runningMbCounter)
    }

    /** Sets up the counters at the resume point; nothing has happened yet. */
    constructor (cfg: LoopConfig)
      requires cfg.resumeKimg >= 0.0
      ensures this.cfg == cfg
      ensures State() == InitialCounters(cfg)
      ensures curTick == -1 && tickStartNimg == curNimg
      ensures curNimg as real <= cfg.resumeKimg * 1000.0 < (curNimg + 1) as real
      ensures log == []
    {
      this.cfg := cfg;
      var n := (cfg.resumeKimg * 1000.0).Floor;
      curNimg := n;
      curTick := -1;
      tickStartNimg := n;
      prevLod := -1.0;
      runningMbCounter := 0;
      log := [];
    }

    /**
     * One pass of the main loop: the loop test, the stop poll, the schedule,
     * the optimizer reset, the minibatch repeats and the maintenance tick.
     */
    method Step(shouldStop: bool) returns (outcome: Outcome)
      modifies this
      ensures var r := Iteration(cfg, old(State()), shouldStop);
        outcome == r.outcome && State() == r.next && log == old(log) + r.events
    {
      if !(curNimg as real < cfg.totalKimg * 1000.0) {
        return Completed;
      }
      if shouldStop {
        return Stopped;
      }
      var sched := Evaluate(cfg.schedule, cfg.resolutionLog2, curNimg);
      if sched.Err? {
        return Failed(BadInitialResolution);
      }
      var s := sched.value;
      var gpuBatch := s.minibatchGpu * cfg.numGpus;
      if gpuBatch == 0 {
        return Failed(ZeroGpuBatch);
      }
      if s.minibatchSize % gpuBatch != 0 {
        return Failed(IndivisibleMinibatch);
      }
      ghost var c0 := State();
      if cfg.resetOptForNewLod && LodBandChanged(s.lod, prevLod) {
        log := log + [ResetOpt];
      }
      prevLod := s.lod;
      assert log == old(log) + ResetEvents(cfg, s, c0);
      var betaMul := if curNimg as real >= EmaStartKimg(cfg) * 1000.0 then 1 else 0;
      var raised := RunRepeats(s, s.minibatchSize / gpuBatch, betaMul);
      if raised {
        return Failed(ZeroRegInterval);
      }
      assert State() == AfterRepeats(cfg, s, c0);
      ghost var body := ResetEvents(cfg, s, c0) + TrainEvents(cfg, s, c0);
      assert log == old(log) + body;
      MaintenancePrefix(cfg, s, State(), old(log), body);
      outcome := Maintain(s);
    }

    /**
     * The `minibatch_repeats` repeats of a pass with schedule `s`: each
     * repeat shows one global minibatch in `rounds` training rounds, with the
     * regularization flag of its running counter. `raised` reports the
     * modulo by a zero regularization interval, raised at the first repeat.
     */
    method RunRepeats(s: TrainingSchedule, rounds: nat, betaMul: int) returns (raised: bool)
      requires prevLod == s.lod
      modifies this
      ensures raised <==> cfg.minibatchRepeats > 0 && cfg.lazyRegularization && cfg.dRegInterval == 0
      ensures raised ==> State() == old(State()) && log == old(log)
      ensures !raised ==> State() == AfterRepeats(cfg, s, old(State()))
      ensures !raised ==> log == old(log) + RepeatEvents(cfg, s, betaMul, rounds, old(runningMbCounter), cfg.minibatchRepeats)
    {
      var repeat := 0;
      while repeat < cfg.minibatchRepeats
        invariant 0 <= repeat <= cfg.minibatchRepeats
        invariant repeat > 0 ==> !cfg.lazyRegularization || cfg.dRegInterval > 0
        invariant curNimg == old(curNimg) + repeat * s.minibatchSize
        invariant runningMbCounter == old(runningMbCounter) + repeat
        invariant curTick == old(curTick) && tickStartNimg == old(tickStartNimg) && prevLod == s.lod
        invariant log == old(log) + RepeatEvents(cfg, s, betaMul, rounds, old(runningMbCounter), repeat)
      {
        if cfg.lazyRegularization && cfg.dRegInterval == 0 {
          return true;
        }
        var runDReg := cfg.lazyRegularization && runningMbCounter % cfg.dRegInterval == 0;
        curNimg := curNimg + s.minibatchSize;
        runningMbCounter := runningMbCounter + 1;
        ghost var before := log;
        for k := 0 to rounds
          invariant log == before + seq(k, _ => TrainRound(s.lod, s.gLrate, s.dLrate, s.minibatchSize,
                                                            s.minibatchGpu, runDReg, betaMul))
        {
          log := log + [TrainRound(s.lod, s.gLrate, s.dLrate, s.minibatchSize, s.minibatchGpu, runDReg, betaMul)];
        }
        repeat := repeat + 1;
      }
      return false;
    }

    /** The end of a pass with schedule `s`: a tick with its report and snapshots, when one is due. */
    method Maintain(s: TrainingSchedule) returns (outcome: Outcome)
      modifies this
      ensures var r := Maintenance(cfg, s, old(State()), old(log));
        outcome == r.outcome && State() == r.next && log == r.events
    {
      var done := !(curNimg as real < cfg.totalKimg * 1000.0);
      if curTick < 0 || curNimg as real >= tickStartNimg as real + s.tickKimg * 1000.0 || done {
        curTick := curTick + 1;
        var tickNimg := curNimg - tickStartNimg;
        tickStartNimg := curNimg;
        if tickNimg == 0 {
          return Failed(ZeroTickProgress);
        }
        log := log + [Tick(curTick, curNimg)];
        if cfg.imageSnapshotTicks.Some? {
          if cfg.imageSnapshotTicks.value == 0 {
            return Failed(ZeroSnapshotCadence);
          }
          if curTick % cfg.imageSnapshotTicks.value == 0 || done {
            log := log + [ImageSnapshot(curNimg / 1000)];
          }
        }
        if cfg.networkSnapshotTicks.Some? {
          if cfg.networkSnapshotTicks.value == 0 {
            return Failed(ZeroSnapshotCadence);
          }
          if curTick % cfg.networkSnapshotTicks.value == 0 || done {
            log := log + [NetSnapshot(curNimg / 1000)];
          }
        }
      }
      return Continue;
    }

    /**
     * The whole loop, followed by the final network snapshot unless it
     * raised. Before the loop, the set-up evaluates the schedule at the end
     * of training, which raises exactly when the schedule of every pass would,
     * so a bad initial resolution ends the run before any pass. `stops` holds
     * the answers of the stop poll, one per pass; a poll past its end asks
     * to stop.
     */
    method Run(stops: seq<bool>) returns (outcome: Outcome, passes: nat)
      modifies this
      ensures !ValidInitialResolution(cfg.schedule) ==>
        outcome == Failed(BadInitialResolution) && passes == 0 && State() == old(State()) && log == old(log)
      ensures ValidInitialResolution(cfg.schedule) ==>
        var r := Loop(cfg, old(State()), stops);
        && outcome == r.outcome && State() == r.next
        && log == old(log) + r.events + (if outcome.Failed? then [] else [Final])
        && passes >= 1 && passes - 1 <= |stops| && (forall j :: 0 <= j < passes - 1 ==> !stops[j])
        && (outcome == Stopped ==> passes > |stops| || stops[passes - 1])
      ensures outcome != Continue
      ensures outcome == Completed ==> !Running(cfg, State())
      ensures outcome == Stopped ==> Running(cfg, State())
      ensures old(curNimg) <= curNimg && old(curTick) <= curTick && old(runningMbCounter) <= runningMbCounter
      ensures old(tickStartNimg) <= old(curNimg) ==> old(tickStartNimg) <= tickStartNimg <= curNimg
      ensures |old(log)| <= |log| && log[..|old(log)|] == old(log)
      ensures !outcome.Failed? <==> Final in log[|old(log)|..]
      ensures !outcome.Failed? ==> log[|log| - 1] == Final && Final !in log[|old(log)|..|log| - 1]
      ensures cfg.minibatchRepeats >= 1 && PositiveMinibatches(cfg.schedule)
              && (forall j :: 0 <= j < |stops| ==> !stops[j])
              && cfg.totalKimg * 1000.0 <= (old(curNimg) + |stops|) as real
              ==> outcome != Stopped
    {
      if !ValidInitialResolution(cfg.schedule) {
        return Failed(BadInitialResolution), 0;
      }
      outcome, passes := Passes(stops);
      ghost var events := log[|old(log)|..];
      assert log == old(log) + events;
      AppendFinal(old(log), events, outcome.Failed?);
      if !outcome.Failed? {
        log := log + [Final];
      }
    }

    /**
     * The passes of the main loop, until one of them leaves it: exactly the
     * passes of `LoopSpec.Loop`.
     */
    method Passes(stops: seq<bool>) returns (outcome: Outcome, passes: nat)
      modifies this
      ensures var r := Loop(cfg, old(State()), stops);
        outcome == r.outcome && State() == r.next && log == old(log) + r.events
      ensures passes >= 1 && passes - 1 <= |stops| && forall j :: 0 <= j < passes - 1 ==> !stops[j]
      ensures outcome == Stopped ==> passes > |stops| || stops[passes - 1]
      ensures outcome != Continue
      ensures outcome == Completed ==> !Running(cfg, State())
      ensures outcome == Stopped ==> Running(cfg, State())
      ensures old(curNimg) <= curNimg && old(curTick) <= curTick && old(runningMbCounter) <= runningMbCounter
      ensures old(tickStartNimg) <= old(curNimg) ==> old(tickStartNimg) <= tickStartNimg <= curNimg
      ensures Final !in log[|old(log)|..]
      ensures cfg.minibatchRepeats >= 1 && PositiveMinibatches(cfg.schedule)
              && (forall j :: 0 <= j < |stops| ==> !stops[j])
              && cfg.totalKimg * 1000.0 <= (old(curNimg) + |stops|) as real
              ==> outcome != Stopped
    {
      ghost var c0 := State();
      outcome, passes := PassLoop(stops);
      LoopExit(cfg, c0, stops);
      LoopMonotone(cfg, c0, stops);
      if cfg.minibatchRepeats >= 1 && PositiveMinibatches(cfg.schedule)
         && (forall j :: 0 <= j < |stops| ==> !stops[j])
         && cfg.totalKimg * 1000.0 <= (c0.curNimg + |stops|) as real {
        LoopNotStopped(cfg, c0, stops);
      }
      assert log[|old(log)|..] == Loop(cfg, c0, stops).events;
    }

    /** The `while` loop of `Passes`, which runs one pass after another until one leaves. */
    method PassLoop(stops: seq<bool>) returns (outcome: Outcome, passes: nat)
      modifies this
      ensures var r := Loop(cfg, old(State()), stops);
        outcome == r.outcome && State() == r.next && log == old(log) + r.events
      ensures passes >= 1 && passes - 1 <= |stops| && forall j :: 0 <= j < passes - 1 ==> !stops[j]
      ensures outcome == Stopped ==> passes > |stops| || stops[passes - 1]
    {
      ghost var c0 := State();
      ghost var done: seq<Event> := [];
      assert stops[0..] == stops;
      outcome := Continue;
      passes := 0;
      while outcome == Continue
        invariant LoopSoFar(c0, old(log), stops, passes, outcome, done)
        decreases |stops| + 1 - passes
      {
        outcome, done := NextPass(c0, old(log), stops, passes, done);
        passes := passes + 1;
      }
    }

    /** `LoopProperties.LoopAt` of the current counters, with the log grown by the events so far. */
    ghost predicate LoopSoFar(c0: Counters, log0: seq<Event>, stops: seq<bool>, passes: nat, outcome: Outcome, done: seq<Event>)
      reads this
    {
      log == log0 + done && LoopAt(cfg, c0, stops, passes, outcome, State(), done)
    }

    /** The next pass of the loop, polled with the next answer of `stops`, or told to stop past its end. */
    method NextPass(ghost c0: Counters, ghost log0: seq<Event>, stops: seq<bool>, passes: nat, ghost done: seq<Event>)
      returns (outcome: Outcome, ghost done': seq<Event>)
      requires LoopSoFar(c0, log0, stops, passes, Continue, done)
      modifies this
      ensures LoopSoFar(c0, log0, stops, passes + 1, outcome, done')
      ensures outcome == Continue ==> passes < |stops|
    {
      var stop := if passes < |stops| then stops[passes] else true;
      ghost var c := State();
      LoopAtNext(cfg, c0, stops, passes, c, done);
      outcome := Step(stop);
      done' := done + Iteration(cfg, c, stop).events;
    }
  }
}
