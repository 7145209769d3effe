# Training schedule and main-loop bookkeeping of DiffAugment-StyleGAN2

This project models two parts of the progressive-growing GAN trainer in
`DiffAugment-stylegan2/training/training_loop.py` and proves properties of them:

- **The schedule evaluator** (`training_schedule`). It is a pure function from the number of
  real images shown so far (`cur_nimg`) and its keyword arguments to a schedule record. The
  record holds kimg, level of detail (lod), resolution, global and per-GPU minibatch size,
  the two learning rates and the tick interval. It is modelled as Dafny functions over exact
  reals in module `Schedule` (`schedule.dfy`).
- **The bookkeeping of the main training loop**: the counters `cur_nimg`, `cur_tick`,
  `tick_start_nimg`, `prev_lod` and `running_mb_counter`; the stop poll; the optimizer resets
  on a change of lod band; the minibatch repeats with their lazy-regularization flag and
  moving-average gate; the maintenance ticks with their image and network snapshots; and the
  final snapshot.
  - The meaning of one pass is a pure function, `LoopSpec.Iteration` (`loop_spec.dfy`). It
    maps the counters to the new counters, an outcome, and the list of events the pass
    produces: optimizer reset, training round, tick, image snapshot, network snapshot, final
    snapshot.
  - Its properties are lemmas in `LoopProperties` (`loop_props.dfy`).
  - The whole loop, from given counters and poll answers until a pass leaves it, is the
    pure function `LoopSpec.Loop`; lemmas in `LoopProperties` state how it ends.
  - The loop itself is the class `Trainer.TrainingLoop` (`trainer.dfy`). Its fields are the
    counters, updated in place, and a ghost log of events. Its `Step` method runs one pass,
    with the repeat loop and the nested round loop, and is proved to change the counters and
    the log exactly as `Iteration` says. Its `Passes` method is proved to do exactly what
    `Loop` says, and `Run` to do that and then write the final snapshot. So every lemma about
    `Iteration` and `Loop` holds of the class.

The exceptions that the Python code raises part-way through a pass are modelled as the
`Failed` outcome, in the order the code reaches them:

- an initial resolution of 0 or less, whose `log2` makes the lod infinite or NaN, so that `int()` of its floor raises (line 94);
- a modulo by a zero per-step batch;
- the divisibility assertion;
- a modulo by a zero `D_reg_interval`;
- the division by the zero kimg of a tick that saw no images;
- a modulo by a zero snapshot cadence.

The first of these is also raised by the set-up, which evaluates the schedule once before the loop (line 200), so in that case no pass runs. On failure, the counters and the log hold what the code had done up to that point.

## Model

| member | source | states |
|---|---|---|
| Schedule.Evaluate | DiffAugment-stylegan2/training/training_loop.py:52-111 | Fails exactly when a configured initial resolution is 0 or less. Otherwise: kimg is cur_nimg/1000; 0 <= lod <= resolution_log2; resolution is 2^(resolution_log2 - floor(lod)), between 1 and the dataset's resolution; with no initial resolution, lod is 0 at full resolution. Minibatch size, per-GPU minibatch and tick interval are the resolution's override when that key exists, else the base value. |
| Schedule.Log2Floor | DiffAugment-stylegan2/training/training_loop.py:88 | floor(log2 n) is the e with 2^e <= n < 2^(e+1). |
| Schedule.PhaseIndex | DiffAugment-stylegan2/training/training_loop.py:79-80 | For a positive phase length the index is the floor of kimg / phase length (idx*d <= kimg < (idx+1)*d), and it is non-negative for non-negative kimg; otherwise it is 0. |
| Schedule.TransitionFraction | DiffAugment-stylegan2/training/training_loop.py:90-92 | The fade-in fraction is non-negative, and 0 when there is no transition period. |
| Schedule.PhaseProgress | DiffAugment-stylegan2/training/training_loop.py:79-92 | Doublings earned so far are non-negative for non-negative kimg. |
| Schedule.Lod | DiffAugment-stylegan2/training/training_loop.py:84-93 | The clamped lod lies in [0, resolution_log2], and is 0 when no initial resolution is set. |
| Schedule.RampedRate | DiffAugment-stylegan2/training/training_loop.py:104-107 | Defines a learning rate after the ramp-up: the rate times min(kimg/lrate_rampup_kimg, 1) when a ramp-up is configured, else the rate. Its properties are stated by RampUpFactor and RampUpMonotone. |
| Schedule.RampUpFactor | DiffAugment-stylegan2/training/training_loop.py:104-107 | Without a ramp-up the rate is unchanged. With one, the ramp is linear: before its end the rate is rate * kimg/lrate_rampup_kimg, so 0 at kimg 0; from its end on it is the configured rate; it stays between 0 and that rate. |
| Schedule.RampUpMonotone | DiffAugment-stylegan2/training/training_loop.py:104-107 | A non-negative ramped rate never decreases as kimg grows. |
| Schedule.LearningRates | DiffAugment-stylegan2/training/training_loop.py:102-107 | The G and D rates of a schedule are the resolution's override or base rate, times kimg/lrate_rampup_kimg during the ramp-up and unscaled after it or without one; 0 at cur_nimg 0 with a ramp-up; between 0 and the looked-up rate. |
| Schedule.LearningRatesMonotone | DiffAugment-stylegan2/training/training_loop.py:102-107 | While the resolution stays the same, non-negative G and D rates never decrease as more images are shown. |
| Schedule.DefaultSchedule | DiffAugment-stylegan2/training/training_loop.py:52-73 | With every keyword argument at its default: full resolution with lod 0, minibatch 32 with 4 per GPU, both rates 0.002, and the default tick table's interval for that resolution, which is 10 kimg at 1024. |
| Schedule.FractionBelowOne | DiffAugment-stylegan2/training/training_loop.py:81-92 | Inside one phase the fade-in fraction stays below 1. |
| Schedule.PhaseIndexMonotone | DiffAugment-stylegan2/training/training_loop.py:79-80 | A later point in training is in the same phase or a later one. |
| Schedule.PhaseProgressMonotone | DiffAugment-stylegan2/training/training_loop.py:79-92 | Doublings earned never decrease as kimg grows. |
| Schedule.LodMonotone | DiffAugment-stylegan2/training/training_loop.py:84-93 | lod is non-increasing in kimg. |
| Schedule.ResolutionOnlyDoubles | DiffAugment-stylegan2/training/training_loop.py:94 | For n1 <= n2: lod and its floor do not grow, and the later resolution is the earlier one times 2^(floor difference), so it is at least as large. |
| Schedule.NoTransitionWholeLod | DiffAugment-stylegan2/training/training_loop.py:90-93 | With no transition period, lod is always a whole number. |
| Schedule.ProgressAtStart | DiffAugment-stylegan2/training/training_loop.py:79-81 | At kimg 0 (and a non-negative training period), no doubling has been earned. |
| Schedule.LodAtStart | DiffAugment-stylegan2/training/training_loop.py:84-93 | At kimg 0 (non-negative training period), lod is resolution_log2 - floor(log2 lod_initial_resolution), clamped at 0. |
| Schedule.ScheduleLodAtStart | DiffAugment-stylegan2/training/training_loop.py:76-93 | The same for the schedule at cur_nimg 0. |
| Schedule.WholeLodResolution | DiffAugment-stylegan2/training/training_loop.py:94 | A whole-number lod w is at most resolution_log2, and the schedule then trains at 2^(resolution_log2 - w). |
| Schedule.StartsAtInitialResolution | DiffAugment-stylegan2/training/training_loop.py:84-94 | Given a non-negative lod_training_kimg and an initial resolution r >= 1 with floor(log2 r) <= resolution_log2: at cur_nimg 0, training runs at 2^floor(log2 r), with lod = resolution_log2 minus that exponent. |
| Schedule.StartsAtFullResolution | DiffAugment-stylegan2/training/training_loop.py:84-94 | Given a non-negative lod_training_kimg and an initial resolution r >= 1 with floor(log2 r) > resolution_log2: training starts at full resolution with lod 0. |
| LoopSpec.InitialCounters | DiffAugment-stylegan2/training/training_loop.py:297-301 | cur_nimg is the truncation of resume_kimg*1000; the tick interval starts there; tick is -1, prev_lod is -1.0, the running counter is 0. |
| LoopSpec.GsBetaMul | DiffAugment-stylegan2/training/training_loop.py:324 | Defines the Gs beta multiplier of a pass; its contract keeps it 0 or 1. EmaStartKimg supplies the default of lines 164-165. EmaGate states when it is 1 and that it never switches back off. |
| LoopSpec.RunDReg | DiffAugment-stylegan2/training/training_loop.py:329-330 | Defines the D-regularization flag of one repeat: lazy regularization on and the running counter divisible by D_reg_interval. DRegCadence states its period and once-per-window property. |
| LoopSpec.RepeatEvents | DiffAugment-stylegan2/training/training_loop.py:326-338 | Defines the training rounds of the first k repeats: `rounds` rounds per repeat, each fed the schedule, the pass's multiplier and that repeat's flag. RepeatEventsShape, RepeatEventsFeed and TrainRoundFeed state its length and contents. |
| LoopSpec.ResetEvents | DiffAugment-stylegan2/training/training_loop.py:311-314 | The optimizer reset of a pass. Its contract says the pass resets at most once, never with reset_opt_for_new_lod off, and never when lod equals prev_lod. OptimizerReset and FirstIterationResets state exactly when it resets (LodBandChanged: floor or ceil of lod differs from prev_lod's). |
| LoopSpec.Maintenance | DiffAugment-stylegan2/training/training_loop.py:340-375 | Defines the end of a pass: the tick test, the tick counters, the report and the snapshots, with the zero-progress and zero-cadence exceptions. MaintenanceShape, MaintenanceRounds, MaintenancePrefix, MaintenanceCounters and MaintenanceSnapshots state its properties. |
| LoopSpec.Iteration | DiffAugment-stylegan2/training/training_loop.py:302-382 | Defines one pass of the loop: the while test, the stop poll, the schedule, the divisibility assertion, the reset, the repeats and maintenance, with each exception in source order. ExitRule, IterationProgress, OptimizerReset, TickRule, SnapshotRule, CountersMonotone, ZeroMinibatchStalls and NoFinalInIteration state its properties; Trainer.TrainingLoop.Step is proved equal to it. |
| LoopProperties.RepeatEventsShape | DiffAugment-stylegan2/training/training_loop.py:326-338 | k repeats of `rounds` rounds emit k*rounds training rounds. Round i carries the regularization flag of running counter counter + i/rounds. |
| LoopProperties.ExitRule | DiffAugment-stylegan2/training/training_loop.py:302-304 | A pass completes exactly when cur_nimg >= total_kimg*1000; it stops exactly when it is still running and the poll says stop. Both change nothing and emit nothing. |
| LoopProperties.IterationProgress | DiffAugment-stylegan2/training/training_loop.py:315-338 | A completed pass adds repeats*minibatch_size images and repeats to the running counter, sets prev_lod to the schedule's lod, and runs repeats*(minibatch_size/(minibatch_gpu*num_gpus)) training rounds. |
| LoopProperties.MaintenanceShape | DiffAugment-stylegan2/training/training_loop.py:340-375 | Maintenance only appends tick and snapshot events, and only changes the tick counters. |
| LoopProperties.MaintenanceRounds | DiffAugment-stylegan2/training/training_loop.py:340-375 | Maintenance runs no training round. |
| LoopProperties.MaintenancePrefix | DiffAugment-stylegan2/training/training_loop.py:340-375 | Maintenance appends to the events before it, whatever they are. |
| LoopProperties.MaintenanceCounters | DiffAugment-stylegan2/training/training_loop.py:342-345 | The tick counter moves by at most one; the interval start stays put or moves to cur_nimg; with no tick, nothing changes. |
| LoopProperties.PastAssertion | DiffAugment-stylegan2/training/training_loop.py:302-309 | Defines a pass that gets past the divisibility assertion: the loop is running, the poll says go, the schedule evaluates, and the global minibatch is a multiple of a non-zero minibatch_gpu*num_gpus. ContinuePastAssertion shows every continuing pass is one. |
| LoopProperties.OptimizerReset | DiffAugment-stylegan2/training/training_loop.py:309-314 | Every pass that gets past the divisibility assertion, even one that raises later, emits an optimizer reset iff reset_opt_for_new_lod is set and the floor or ceil of lod differs from prev_lod's (`ResetOpt` is among its events exactly then). |
| LoopProperties.ContinuePastAssertion | DiffAugment-stylegan2/training/training_loop.py:302-309 | Every pass that continues got past the divisibility assertion. |
| LoopProperties.FirstIterationResets | DiffAugment-stylegan2/training/training_loop.py:300-315 | With resets enabled, the first pass from the initial counters that gets past the divisibility assertion always resets, because prev_lod starts at -1. |
| LoopProperties.BodyIsQuiet | DiffAugment-stylegan2/training/training_loop.py:311-338 | Before maintenance a pass emits only resets and training rounds. |
| LoopProperties.TickRule | DiffAugment-stylegan2/training/training_loop.py:341-345 | A tick fires iff it is the first tick, or tick_kimg*1000 images have passed since the last tick, or training is done. Then tick+1, interval restarted at cur_nimg, images were shown, and a Tick is reported. Otherwise both counters are unchanged and nothing is reported or saved. |
| LoopProperties.MaintenanceSnapshots | DiffAugment-stylegan2/training/training_loop.py:365-372 | Image (network) snapshot of the current kimg iff the tick fired and its cadence is set and divides the tick, or training is done; no other snapshots. |
| LoopProperties.SnapshotRule | DiffAugment-stylegan2/training/training_loop.py:365-372 | The same for a whole pass. A finishing pass always ticks and saves every configured kind of snapshot. |
| LoopProperties.CountersMonotone | DiffAugment-stylegan2/training/training_loop.py:297-345 | No pass moves cur_nimg, cur_tick or running_mb_counter backwards. cur_tick grows by at most one. tick_start_nimg stays between its old value and cur_nimg. |
| LoopProperties.MinimumProgress | DiffAugment-stylegan2/training/training_loop.py:326-333 | With positive minibatch sizes, a completed pass adds at least minibatch_repeats images. |
| LoopProperties.ZeroMinibatchStalls | DiffAugment-stylegan2/training/training_loop.py:326-345 | A pass whose schedule has a global minibatch of 0 and that is not due for a tick shows no image and runs no round; only prev_lod and the running counter change; the loop is still running and the next pass, polled alike, continues again without a tick. So without a stop poll such a loop never ends. |
| LoopProperties.NoFinalInIteration | DiffAugment-stylegan2/training/training_loop.py:302-385 | No pass writes the final network; only the code after the loop does. |
| LoopProperties.DRegCadence | DiffAugment-stylegan2/training/training_loop.py:329-330 | With lazy regularization the D-reg flag has period D_reg_interval and is set exactly once in every window of that many consecutive counters; without it, never. |
| LoopProperties.EmaGate | DiffAugment-stylegan2/training/training_loop.py:324 | The Gs beta multiplier is 1 iff cur_nimg >= ema_start_kimg*1000, otherwise 0. ema_start_kimg defaults to G_ema_kimg. The multiplier never switches back off. |
| LoopProperties.RepeatEventsFeed | DiffAugment-stylegan2/training/training_loop.py:326-338 | Every training round of k repeats carries the running counter of one of them. |
| LoopSpec.Loop | DiffAugment-stylegan2/training/training_loop.py:302-382 | Defines the whole loop: passes in turn, each polled with the next answer, until one leaves; its outcome and counters and the events of all passes. LoopExit, LoopMonotone and LoopNotStopped state its properties; Trainer.TrainingLoop.Passes is proved equal to it. |
| LoopProperties.LoopExit | DiffAugment-stylegan2/training/training_loop.py:302-304 | The loop always leaves: it completes with the image target reached, stops while still short of it, or raises. |
| LoopProperties.LoopMonotone | DiffAugment-stylegan2/training/training_loop.py:297-345 | Over the whole loop cur_nimg, cur_tick and running_mb_counter never decrease, cur_tick grows by at most one per pass (the number of polls plus one in all), tick_start_nimg stays between its old value and cur_nimg, and no pass writes the final network. |
| LoopProperties.LoopNotStopped | DiffAugment-stylegan2/training/training_loop.py:302-338 | With at least one repeat and positive minibatch sizes, if the polls say go for at least as many passes as images remain, the loop completes or raises: it does not end stopped. |
| LoopProperties.TrainRoundFeed | DiffAugment-stylegan2/training/training_loop.py:318-338 | Every training round of a completed pass is fed the schedule's lod, rates and minibatch sizes, the pass's EMA multiplier, and the D-reg flag of one of the pass's running counters. |
| Trainer.TrainingLoop.constructor | DiffAugment-stylegan2/training/training_loop.py:297-301 | The fields are the initial counters, and the log is empty. |
| Trainer.TrainingLoop.Step | DiffAugment-stylegan2/training/training_loop.py:302-382 | One pass of the loop: outcome, new counters and appended events are exactly those of LoopSpec.Iteration on the old counters. |
| Trainer.TrainingLoop.RunRepeats | DiffAugment-stylegan2/training/training_loop.py:326-338 | The repeat and round loops. They raise exactly on a zero D_reg_interval with lazy regularization and at least one repeat, changing nothing. Otherwise the counters advance as in AfterRepeats and the log gains the rounds of all repeats. |
| Trainer.TrainingLoop.Maintain | DiffAugment-stylegan2/training/training_loop.py:340-375 | The maintenance tick: outcome, counters and log as LoopSpec.Maintenance describes. |
| Trainer.TrainingLoop.Passes | DiffAugment-stylegan2/training/training_loop.py:302-382 | Runs passes until one leaves the loop: its outcome, new counters and appended events are exactly those of LoopSpec.Loop on the old counters and the polls. Hence: Completed means the image target is reached; Stopped means the last poll said stop; all earlier polls said go; counters never decrease; the log gains no Final; with enough go polls, positive minibatches and a repeat, it does not end stopped. |
| Trainer.TrainingLoop.Run | DiffAugment-stylegan2/training/training_loop.py:200-385 | A bad initial resolution raises in the set-up evaluation at line 200, before any pass, and nothing changes. Otherwise outcome, counters and log are those of LoopSpec.Loop, with the final network snapshot appended unless it raised: Final is written iff no exception was raised, and then exactly once, as the last event. Suppose there is at least one repeat, minibatch sizes are positive, and the polls never ask to stop for at least as many passes as images remain. Then the loop does not end stopped: it completes or raises. |

## Left out

- TensorFlow: the graph, the networks, the optimizers, the losses, the Gs update `lerp` and `0.5 ** (minibatch_size / (G_ema_kimg*1000))`, and the training-set reads. A training round is an event carrying its feed dictionary. The Gs beta multiplier is modelled, the moving-average arithmetic is not.
- Logging, time measurement, autosummaries, the metrics run, file names and pickles: a tick is an event carrying the tick number and `cur_nimg`; an image snapshot and a network snapshot are events carrying `cur_nimg // 1000`.
- The setup before line 296 (dataset loading, network construction, resume from a pickle, `process_reals`, the image grid) and `DiffAugment-stylegan2/preprocess.py`. Of that setup, two things are modelled: `ema_start_kimg` defaulting to `G_ema_kimg` (lines 164-165), and the exception that the schedule evaluation at lines 200-201 raises for a bad initial resolution. That evaluation's result, and the initial fakes it is used for, are not modelled.
- `should_stop()` of the run context is an input: a sequence of poll answers, where a poll past its end asks to stop.
- Floating point: kimg, lod, learning rates and the loop's comparisons use exact reals. Rounding of `cur_nimg / 1000.0`, of `np.log2` and of the lod arithmetic is not modelled. `floor(log2(r))` is computed exactly on integers.
- Schedule.Evaluate: the minibatch sizes (base, per GPU and overrides) are natural numbers. Negative values, which Python would accept, are not modelled.
- Schedule.Evaluate: `lod_initial_resolution` is modelled as a whole number. A fractional value such as 0.5, which Python accepts and which gives a finite `log2` and a fractional resolution, is not modelled.
- LoopSpec.Iteration: `num_gpus`, `minibatch_repeats`, the snapshot cadences and `D_reg_interval` are natural numbers. Negative values, which Python would accept, are not modelled.
- Trainer.TrainingLoop.constructor: requires a non-negative `resume_kimg`, so that `cur_nimg` is a natural number. `int()` truncates toward zero, which for a non-negative value is the floor used here.
- LoopSpec.InitialCounters: requires a non-negative `resume_kimg`, so that `cur_nimg` is a natural number and the truncation of `int()` is the floor.
- The `training_set` argument is reduced to its `resolution_log2`. `training_set.configure` is not modelled.
- A zero-step `range` cannot arise: the modulo by the same zero per-step batch raises first.
- The image target is tested only between passes (line 302), never between repeats. With `total_kimg=1`, a global minibatch of 4, one GPU and the default `minibatch_repeats=4`, each pass adds 16 images and the loop ends at 1008, not 1000.
