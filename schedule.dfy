/**
 * One epoch of the training step loop of `ChatTrainer.train`: the label masking
 * before the forward pass, the steps at which gradients are clipped and the
 * optimizer, scheduler and zero-grad run, and the steps whose loss is logged.
 * The forward and backward passes are abstracted: each batch carries the mean
 * loss the forward pass reports for it.
 */
module Schedule {
  import opened Loader

  /** The label value the loss ignores. */
  const IgnoreIndex: int := -100

  /** `log_loss_interval_n`: a loss sample every this many steps. */
  const LogLossInterval: nat := 50

  /** One batch from the training loader: its (flattened) `target_ids` and the loss the model returns for it. */
  datatype Batch = Batch(targetIds: seq<int>, loss: real)

  /** An entry of `epoch_loss_list` together with the step that logged it. */
  datatype LossSample = LossSample(step: nat, loss: real)

  /** The labels after `target_ids[target_ids == decoder_start_token_id] = -100`. */
  function Masked(targetIds: seq<int>, padId: int): seq<int>
  {
    seq(|targetIds|, i requires 0 <= i < |targetIds| => if targetIds[i] == padId then IgnoreIndex else targetIds[i])
  }

  /** Line 307: every target equal to the pad/decoder-start id becomes -100, in place. */
  method MaskPadTargets(targetIds: array<int>, padId: int)
    modifies targetIds
    ensures forall i :: 0 <= i < targetIds.Length ==>
      targetIds[i] == if old(targetIds[i]) == padId then IgnoreIndex else old(targetIds[i])
    ensures targetIds[..] == Masked(old(targetIds[..]), padId)
  {
    forall i | 0 <= i < targetIds.Length && targetIds[i] == padId {
      targetIds[i] := IgnoreIndex;
    }
  }

  /** Line 321: the gradient-accumulation gate. */
  predicate IsUpdateStep(step: nat, accumulationSteps: nat)
    requires accumulationSteps >= 1
  {
    step % accumulationSteps == 0
  }

  /** Line 332: the loss-logging gate. */
  predicate IsLogStep(step: nat, stepsPerEpoch: int)
  {
    step % LogLossInterval == 0 || step == stepsPerEpoch
  }

  /** The steps, in order, among the first `n` at which the optimizer steps. */
  function UpdateSteps(n: nat, accumulationSteps: nat): seq<nat>
    requires accumulationSteps >= 1
  {
    if n == 0 then []
    else UpdateSteps(n - 1, accumulationSteps) + (if IsUpdateStep(n - 1, accumulationSteps) then [n - 1] else [])
  }

  /** The samples appended to `epoch_loss_list` over an epoch with these batches. */
  function LossSamples(batches: seq<Batch>, stepsPerEpoch: int): seq<LossSample>
  {
    if batches == [] then []
    else
      var last := |batches| - 1;
      LossSamples(batches[..last], stepsPerEpoch)
        + (if IsLogStep(last, stepsPerEpoch) then [LossSample(last, batches[last].loss)] else [])
  }

  /**
   * Lines 301-335, one epoch: the labels passed to the forward pass at each step,
   * the steps that ran clip/optimizer/scheduler/zero-grad, and the logged loss samples.
   */
  method RunEpoch(batches: seq<Batch>, padId: int, accumulationSteps: nat, stepsPerEpoch: int)
    returns (labels: seq<seq<int>>, updateSteps: seq<nat>, lossSamples: seq<LossSample>)
    requires accumulationSteps >= 1
    ensures |labels| == |batches|
    ensures forall s :: 0 <= s < |batches| ==> labels[s] == Masked(batches[s].targetIds, padId)
    ensures updateSteps == UpdateSteps(|batches|, accumulationSteps)
    ensures lossSamples == LossSamples(batches, stepsPerEpoch)
  {
    labels, updateSteps, lossSamples := [], [], [];
    var step := 0;
    while step < |batches|
      invariant 0 <= step <= |batches|
      invariant |labels| == step
      invariant forall s :: 0 <= s < step ==> labels[s] == Masked(batches[s].targetIds, padId)
      invariant updateSteps == UpdateSteps(step, accumulationSteps)
      invariant lossSamples == LossSamples(batches[..step], stepsPerEpoch)
    {
      var batch := batches[step];
      var targetIds := new int[|batch.targetIds|](i requires 0 <= i < |batch.targetIds| => batch.targetIds[i]);
      assert targetIds[..] == batch.targetIds;
      MaskPadTargets(targetIds, padId);
      labels := labels + [targetIds[..]];

      if step % accumulationSteps == 0 {
        updateSteps := updateSteps + [step];
      }
      assert batches[..step + 1][..step] == batches[..step];
      if step % LogLossInterval == 0 || step == stepsPerEpoch {
        lossSamples := lossSamples + [LossSample(step, batch.loss)];
      }
      step := step + 1;
    }
    assert batches[..|batches|] == batches;
  }

  // ---------------------------------------------------------------------------
  // Lemmas: masking

  /** Masking again changes nothing, and no pad id survives unless it is -100 itself. */
  lemma MaskedIdempotent(targetIds: seq<int>, padId: int)
    ensures Masked(Masked(targetIds, padId), padId) == Masked(targetIds, padId)
    ensures padId != IgnoreIndex ==> padId !in Masked(targetIds, padId)
  {
  }

  // ---------------------------------------------------------------------------
  // Lemmas: the update schedule

  /** The optimizer steps exactly at the steps divisible by the accumulation count, in increasing order. */
  lemma {:induction false} UpdateStepsMeaning(n: nat, accumulationSteps: nat)
    requires accumulationSteps >= 1
    ensures forall s: nat :: s in UpdateSteps(n, accumulationSteps) <==> s < n && s % accumulationSteps == 0
    ensures forall i, j :: 0 <= i < j < |UpdateSteps(n, accumulationSteps)| ==>
      UpdateSteps(n, accumulationSteps)[i] < UpdateSteps(n, accumulationSteps)[j]
  {
    if n > 0 {
      UpdateStepsMeaning(n - 1, accumulationSteps);
      var prefix := UpdateSteps(n - 1, accumulationSteps);
      forall i | 0 <= i < |prefix|
        ensures prefix[i] < n - 1
      {
        assert prefix[i] in prefix;
      }
    }
  }

  /** Step 0 always updates, so a non-empty epoch starts with an optimizer step. */
  lemma {:induction false} FirstStepUpdates(n: nat, accumulationSteps: nat)
    requires accumulationSteps >= 1 && n >= 1
    ensures |UpdateSteps(n, accumulationSteps)| >= 1 && UpdateSteps(n, accumulationSteps)[0] == 0
  {
    if n > 1 {
      FirstStepUpdates(n - 1, accumulationSteps);
    } else {
      assert UpdateSteps(0, accumulationSteps) == [];
    }
  }

  /** An epoch of n steps takes ceil(n / accumulation_steps) optimizer steps. */
  lemma {:induction false} UpdateStepsCount(n: nat, accumulationSteps: nat)
    requires accumulationSteps >= 1
    ensures |UpdateSteps(n, accumulationSteps)| == (n + accumulationSteps - 1) / accumulationSteps
  {
    if n > 0 {
      UpdateStepsCount(n - 1, accumulationSteps);
      CeilDivStep(n - 1, accumulationSteps);
      assert n + accumulationSteps - 1 == (n - 1) + accumulationSteps;
    }
  }

  /** One more step adds one to ceil(m / a) exactly when m is a multiple of a. */
  lemma CeilDivStep(m: nat, a: nat)
    requires a >= 1
    ensures (m + a) / a == (m + a - 1) / a + (if m % a == 0 then 1 else 0)
  {
    var q, r := m / a, m % a;
    assert m == q * a + r && 0 <= r < a;
    assert (q + 1) * a == q * a + a;
    if r == 0 {
      DivOfDecomposition(q, a, a - 1);
      DivOfDecomposition(q + 1, a, 0);
    } else {
      DivOfDecomposition(q + 1, a, r - 1);
      DivOfDecomposition(q + 1, a, r);
    }
  }

  /** Euclidean division recovers the quotient of `q * a + t` for a remainder `t` in range. */
  lemma DivOfDecomposition(q: int, a: nat, t: int)
    requires a >= 1 && 0 <= t < a
    ensures (q * a + t) / a == q
  {
    var x := q * a + t;
    var d := x / a;
    assert d * a + x % a == x;
    assert (d - q) * a == t - x % a;
    assert (-1) * a < (d - q) * a < 1 * a;
    MulLessCancel(-1, d - q, a);
    MulLessCancel(d - q, 1, a);
  }

  // ---------------------------------------------------------------------------
  // Lemmas: the logging schedule

  /**
   * A loss sample is taken exactly at the steps that are a multiple of 50 or equal
   * `steps_per_epoch`, carries that step's loss, and samples come in step order.
   */
  lemma {:induction false} LossSamplesMeaning(batches: seq<Batch>, stepsPerEpoch: int)
    ensures forall k :: 0 <= k < |LossSamples(batches, stepsPerEpoch)| ==>
      var sample := LossSamples(batches, stepsPerEpoch)[k];
      sample.step < |batches| && IsLogStep(sample.step, stepsPerEpoch) && sample.loss == batches[sample.step].loss
    ensures forall s :: 0 <= s < |batches| ==>
      (LossSample(s, batches[s].loss) in LossSamples(batches, stepsPerEpoch) <==> IsLogStep(s, stepsPerEpoch))
    ensures forall i, j :: 0 <= i < j < |LossSamples(batches, stepsPerEpoch)| ==>
      LossSamples(batches, stepsPerEpoch)[i].step < LossSamples(batches, stepsPerEpoch)[j].step
  {
    if batches != [] {
      var last := |batches| - 1;
      var init := batches[..last];
      LossSamplesMeaning(init, stepsPerEpoch);
      var prefix := LossSamples(init, stepsPerEpoch);
      assert forall k :: 0 <= k < |prefix| ==> prefix[k].step < last;
      forall s | 0 <= s < last
        ensures batches[s] == init[s]
      {
      }
    }
  }

  // ---------------------------------------------------------------------------
  // Finding: the last step of an epoch is not always logged

  /**
   * On one process the loader yields ceil(n / batch_size) batches while
   * `steps_per_epoch` is n // batch_size, so `step == steps_per_epoch` catches the
   * final step only when the last batch is partial.
   */
  lemma FinalStepLoggedIff(datasetLen: nat, batchSize: nat)
    requires batchSize >= 1 && datasetLen >= 1
    ensures var n := BatchesPerEpoch(datasetLen, batchSize);
      var stepsPerEpoch := StepsPerEpoch(datasetLen, TotalBatchSize(1, batchSize));
      && n >= 1
      && (IsLogStep(n - 1, stepsPerEpoch) <==> (n - 1) % LogLossInterval == 0 || datasetLen % batchSize != 0)
  {
    StepsPerEpochIsFloor(datasetLen, batchSize);
    var q, r := datasetLen / batchSize, datasetLen % batchSize;
    assert datasetLen == q * batchSize + r;
    assert (q + 1) * batchSize == q * batchSize + batchSize;
    if r == 0 {
      DivOfDecomposition(q, batchSize, batchSize - 1);
    } else {
      DivOfDecomposition(q + 1, batchSize, r - 1);
    }
  }

  /** 100 samples in batches of 10: ten steps, `steps_per_epoch == 10`, and the final step 9 is not logged. */
  lemma FinalStepNotLogged()
    ensures BatchesPerEpoch(100, 10) == 10
    ensures StepsPerEpoch(100, TotalBatchSize(1, 10)) == 10
    ensures !IsLogStep(9, StepsPerEpoch(100, TotalBatchSize(1, 10)))
  {
    StepsPerEpochIsFloor(100, 10);
  }

  /** The evident intent: log every 50 steps and at the last step the loader yields. */
  predicate IsLogStepIntended(step: nat, numBatches: nat)
  {
    step % LogLossInterval == 0 || step + 1 == numBatches
  }

  function IntendedLossSamples(batches: seq<Batch>, numBatches: nat): seq<LossSample>
  {
    if batches == [] then []
    else
      var last := |batches| - 1;
      IntendedLossSamples(batches[..last], numBatches)
        + (if IsLogStepIntended(last, numBatches) then [LossSample(last, batches[last].loss)] else [])
  }

  /** With the intended gate, every non-empty epoch's last loss sample is its final step. */
  lemma IntendedLogsFinalStep(batches: seq<Batch>)
    requires |batches| >= 1
    ensures var samples := IntendedLossSamples(batches, |batches|);
      |samples| >= 1 && samples[|samples| - 1] == LossSample(|batches| - 1, batches[|batches| - 1].loss)
  {
  }
}
