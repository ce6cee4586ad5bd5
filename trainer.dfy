/**
 * `ChatTrainer` itself: the state its methods change (whether the model and the
 * accelerator are set, and which checkpoints `save_model` has written) and the
 * epoch loop of `train` that ties the loader arithmetic, the step schedule and
 * the best-epoch bookkeeping together. Each epoch's validation score is an input;
 * the model, the optimizer and `my_average` are not part of this model.
 */
module Trainer {
  import opened Wrappers
  import opened Checkpoints
  import opened Loader
  import opened Schedule
  import opened Best
  import opened Interrupt

  /** The fields of the training configuration the loop reads. */
  datatype TrainConfig = TrainConfig(batchSizePerGpu: nat, gradientAccumulationSteps: nat, epochs: nat)

  /** What the host reports: free memory in bytes, the platform, and the physical core count. */
  datatype HostProbe = HostProbe(availableBytes: nat, isWindows: bool, physicalCores: Option<nat>)

  /** One epoch as the trainer saw it: optimizer steps, `epoch_loss_list`, the score, and the best so far. */
  datatype EpochLog = EpochLog(updateSteps: seq<nat>, lossSamples: seq<LossSample>, bleu4: real, best: BestSoFar)

  /**
   * Why `train` stops before the model and accelerator are set, in the order the
   * code meets them: the core count `None` compared at line 159 (TypeError); the
   * shuffled `DataLoader` of line 179 refusing an empty training set, and then a
   * batch size of 0 (ValueError); line 244 dividing by `batch_size * 0` when
   * accumulation is 0 (ZeroDivisionError); `OneCycleLR` at line 240 refusing 0
   * epochs (ValueError).
   */
  datatype TrainError =
    | HostProbeFailed(probe: ProbeError)
    | EmptyTrainingSet
    | BatchSizeNotPositive
    | AccumulationStepsZero
    | EpochsNotPositive

  datatype TrainReport = TrainReport(
    settings: LoaderSettings,
    stepsPerEpoch: int,
    schedulerStepsPerEpoch: int,
    epochs: seq<EpochLog>,
    best: BestSoFar)

  /**
   * The checkpoints the main process writes over a run with these scores: every
   * epoch once after its training steps, and once more when its score is at least
   * the best so far.
   */
  function TrainSaves(scores: seq<real>): seq<Tag>
  {
    if scores == [] then []
    else
      var e := |scores| - 1;
      TrainSaves(scores[..e]) + [EpochTag(e)] + (if scores[e] >= BestOf(scores[..e]).bleu4 then [EpochTag(e)] else [])
  }

  class ChatTrainer {
    /** `self.model` and `self.accelerator` are set (they are set together and never cleared). */
    var started: bool
    /** The tags `save_model` has written a checkpoint for, in order. */
    var saved: seq<Tag>

    /** Lines 54-71, without the logger, the signal registration and the seeding. */
    constructor ()
      ensures !started && saved == []
    {
      started := false;
      saved := [];
    }

    /** Lines 95-103: a checkpoint is written only once the model and the accelerator exist. */
    method SaveModel(tag: Tag)
      modifies this
      ensures started == old(started)
      ensures saved == old(saved) + (if started then [tag] else [])
    {
      if started {
        saved := saved + [tag];
      }
    }

    /** Lines 73-93: the SIGINT handler, with the terminal answer and the timestamp as parameters. */
    method ProcessExitHandler(isMain: bool, answer: string, stamp: string) returns (d: Decision, status: Option<int>)
      modifies this
      ensures d == ExitDecision(old(started), isMain, answer)
      ensures status == ExitStatus(d)
      ensures started == old(started)
      ensures saved == old(saved) + (if d == SaveAndExit then [ExitTag(stamp)] else [])
    {
      if started && isMain {
        if Affirmative(answer) {
          SaveModel(ExitTag(stamp));
          return SaveAndExit, Some(0);
        } else {
          return Resume, None;
        }
      } else {
        return ExitNow, Some(0);
      }
    }

    /**
     * Lines 354-378: after an epoch's steps the main process saves a checkpoint;
     * a score at least as high as the best so far becomes the best, and the main
     * process saves that epoch again.
     */
    method EndOfEpoch(epoch: nat, score: real, best: BestSoFar, isMain: bool) returns (newBest: BestSoFar)
      modifies this
      ensures newBest == Update(best, epoch, score)
      ensures started == old(started)
      ensures saved == old(saved) + (if isMain && started then
        [EpochTag(epoch)] + (if score >= best.bleu4 then [EpochTag(epoch)] else []) else [])
    {
      newBest := best;
      if isMain {
        SaveModel(EpochTag(epoch));
      }
      if score >= best.bleu4 {
        newBest := BestSoFar(score, epoch);
        if isMain {
          SaveModel(EpochTag(epoch));
        }
      }
    }

    /**
     * Lines 289-387: the epochs, each with its step loop, its checkpoints and the
     * best-epoch update; `epoch_loss_list` starts empty in every epoch.
     */
    method EpochLoop(epochBatches: seq<seq<Batch>>, scores: seq<real>, padId: int, accumulationSteps: nat,
                     stepsPerEpoch: int, isMain: bool)
      returns (logs: seq<EpochLog>, best: BestSoFar)
      requires started && accumulationSteps >= 1 && |epochBatches| == |scores|
      modifies this
      ensures started
      ensures saved == old(saved) + (if isMain then TrainSaves(scores) else [])
      ensures best == BestOf(scores)
      ensures |logs| == |scores|
      ensures forall e :: 0 <= e < |scores| ==>
        logs[e] == EpochLog(UpdateSteps(|epochBatches[e]|, accumulationSteps),
                            LossSamples(epochBatches[e], stepsPerEpoch), scores[e], BestOf(scores[..e + 1]))
    {
      best := Initial;
      logs := [];
      var epoch := 0;
      while epoch < |scores|
        invariant 0 <= epoch <= |scores|
        invariant started
        invariant best == BestOf(scores[..epoch])
        invariant saved == old(saved) + (if isMain then TrainSaves(scores[..epoch]) else [])
        invariant |logs| == epoch
        invariant forall e :: 0 <= e < epoch ==>
          logs[e] == EpochLog(UpdateSteps(|epochBatches[e]|, accumulationSteps),
                              LossSamples(epochBatches[e], stepsPerEpoch), scores[e], BestOf(scores[..e + 1]))
      {
        TrainStep(scores, epoch);
        var labels, updateSteps, epochLossList := RunEpoch(epochBatches[epoch], padId, accumulationSteps, stepsPerEpoch);
        best := EndOfEpoch(epoch, scores[epoch], best, isMain);
        assert saved == old(saved) + (if isMain then TrainSaves(scores[..epoch + 1]) else []);
        assert best == BestOf(scores[..epoch + 1]);
        var entry := EpochLog(updateSteps, epochLossList, scores[epoch], best);
        ghost var before := logs;
        logs := logs + [entry];
        forall e | 0 <= e < epoch + 1
          ensures logs[e] == EpochLog(UpdateSteps(|epochBatches[e]|, accumulationSteps),
                                      LossSamples(epochBatches[e], stepsPerEpoch), scores[e], BestOf(scores[..e + 1]))
        {
          if e < epoch {
            assert logs[e] == before[e];
          }
        }
        epoch := epoch + 1;
      }
      assert scores[..|scores|] == scores;
    }

    /**
     * Lines 136-387: the loader settings and batch arithmetic, then for each epoch
     * the step loop, a checkpoint, the score and the best-epoch update. Each failure
     * of `TrainError` stops the run before the model is set, the first one the code
     * meets deciding the error.
     */
    method Train(config: TrainConfig, host: HostProbe, trainLen: nat, numProcesses: int, isMain: bool,
                 padId: int, epochBatches: seq<seq<Batch>>, scores: seq<real>)
      returns (r: Result<TrainReport, TrainError>)
      requires |epochBatches| == config.epochs && |scores| == config.epochs
      modifies this
      ensures var settings := LoaderSettingsFor(host.availableBytes, host.isWindows, host.physicalCores);
        var batch, acc, epochs := config.batchSizePerGpu, config.gradientAccumulationSteps, config.epochs;
        && (r.Err? <==> settings.Err? || batch == 0 || acc == 0 || epochs == 0 || trainLen == 0)
        && (settings.Err? ==> r == Err(HostProbeFailed(settings.error)))
        && (settings.Ok? && trainLen == 0 ==> r == Err(EmptyTrainingSet))
        && (settings.Ok? && trainLen >= 1 && batch == 0 ==> r == Err(BatchSizeNotPositive))
        && (settings.Ok? && trainLen >= 1 && batch >= 1 && acc == 0 ==> r == Err(AccumulationStepsZero))
        && (settings.Ok? && trainLen >= 1 && batch >= 1 && acc >= 1 && epochs == 0 ==> r == Err(EpochsNotPositive))
      ensures r.Err? ==> started == old(started) && saved == old(saved)
      ensures r.Ok? ==> started && saved == old(saved) + (if isMain then TrainSaves(scores) else [])
      ensures r.Ok? ==>
        var report := r.value;
        var acc := config.gradientAccumulationSteps;
        && report.settings == LoaderSettingsFor(host.availableBytes, host.isWindows, host.physicalCores).value
        && report.stepsPerEpoch == trainLen / TotalBatchSize(numProcesses, config.batchSizePerGpu)
        && report.schedulerStepsPerEpoch == SchedulerStepsPerEpoch(trainLen, config.batchSizePerGpu, acc)
        && report.schedulerStepsPerEpoch >= 1
        && |report.epochs| == config.epochs
        && (forall e :: 0 <= e < config.epochs ==>
              report.epochs[e] == EpochLog(UpdateSteps(|epochBatches[e]|, acc),
                                           LossSamples(epochBatches[e], report.stepsPerEpoch),
                                           scores[e], BestOf(scores[..e + 1])))
        && report.best == BestOf(scores)
    {
      var settings := LoaderSettingsFor(host.availableBytes, host.isWindows, host.physicalCores);
      if settings.Err? {
        return Err(HostProbeFailed(settings.error));
      }
      if trainLen == 0 {
        return Err(EmptyTrainingSet);
      }
      if config.batchSizePerGpu == 0 {
        return Err(BatchSizeNotPositive);
      }
      var accumulationSteps := config.gradientAccumulationSteps;
      var totalBatchSize := TotalBatchSize(numProcesses, config.batchSizePerGpu);
      TotalBatchSizeMeaning(numProcesses, config.batchSizePerGpu);
      var stepsPerEpoch := StepsPerEpoch(trainLen, totalBatchSize);
      StepsPerEpochIsFloor(trainLen, totalBatchSize);
      if accumulationSteps == 0 {
        return Err(AccumulationStepsZero);
      }
      var schedulerSteps := SchedulerStepsPerEpoch(trainLen, config.batchSizePerGpu, accumulationSteps);
      SchedulerStepsPositive(trainLen, config.batchSizePerGpu, accumulationSteps);
      if config.epochs <= 0 {
        return Err(EpochsNotPositive);
      }
      started := true;
      var logs, best := EpochLoop(epochBatches, scores, padId, accumulationSteps, stepsPerEpoch, isMain);
      return Ok(TrainReport(settings.value, stepsPerEpoch, schedulerSteps, logs, best));
    }
  }

  // ---------------------------------------------------------------------------
  // Lemmas about the checkpoints a run writes

  /** One more epoch extends the bookkeeping by that epoch's update. */
  lemma TrainStep(scores: seq<real>, epoch: nat)
    requires epoch < |scores|
    ensures BestOf(scores[..epoch + 1]) == Update(BestOf(scores[..epoch]), epoch, scores[epoch])
    ensures TrainSaves(scores[..epoch + 1]) == TrainSaves(scores[..epoch]) + [EpochTag(epoch)]
      + (if scores[epoch] >= BestOf(scores[..epoch]).bleu4 then [EpochTag(epoch)] else [])
  {
    assert scores[..epoch + 1][..epoch] == scores[..epoch];
  }

  /** A run writes a checkpoint for every epoch, and for nothing but its own epochs. */
  lemma {:induction false} TrainSavesMeaning(scores: seq<real>)
    ensures forall t :: t in TrainSaves(scores) <==> t.EpochTag? && t.epoch < |scores|
    ensures |TrainSaves(scores)| >= |scores|
  {
    if scores != [] {
      TrainSavesMeaning(scores[..|scores| - 1]);
    }
  }

  /**
   * When some score reached the best, the best epoch's checkpoint was written
   * twice: once after its steps and once as the new best.
   */
  lemma {:induction false} BestEpochSavedTwice(scores: seq<real>)
    requires exists e :: 0 <= e < |scores| && scores[e] >= 0.0
    ensures multiset(TrainSaves(scores))[EpochTag(BestOf(scores).epoch)] == 2
  {
    var n := |scores|;
    var init := scores[..n - 1];
    TrainSavesMeaning(init);
    var extra := [EpochTag(n - 1)] + (if scores[n - 1] >= BestOf(init).bleu4 then [EpochTag(n - 1)] else []);
    assert TrainSaves(scores) == TrainSaves(init) + extra;
    if scores[n - 1] >= BestOf(init).bleu4 {
      assert EpochTag(n - 1) !in TrainSaves(init);
      assert multiset(extra)[EpochTag(n - 1)] == 2;
    } else {
      BestSetEarlier(scores);
      BestEpochSavedTwice(init);
      assert EpochTag(BestOf(init).epoch) !in extra;
    }
  }

  /** A last score below the best so far leaves the bookkeeping as it was, and that best came from a real score. */
  lemma BestSetEarlier(scores: seq<real>)
    requires exists e :: 0 <= e < |scores| && scores[e] >= 0.0
    requires scores[|scores| - 1] < BestOf(scores[..|scores| - 1]).bleu4
    ensures var init := scores[..|scores| - 1];
      && BestOf(scores) == BestOf(init)
      && BestOf(init).epoch < |init|
      && exists e :: 0 <= e < |init| && init[e] >= 0.0
  {
    var init := scores[..|scores| - 1];
    BestOfMeaning(init);
    forall k | 0 <= k < |init|
      ensures init[k] == scores[k]
    {
    }
    var w :| 0 <= w < |scores| && scores[w] >= 0.0;
    if w < |init| {
      assert init[w] >= 0.0;
    } else {
      assert BestOf(init).bleu4 > 0.0;
    }
  }
}
