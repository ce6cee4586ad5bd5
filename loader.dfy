/**
 * Data-loading and batch arithmetic of `ChatTrainer.train`: whether the dataset is
 * kept in memory, pinned memory and worker count for the loaders, the batch size
 * summed over processes, the steps per epoch and the scheduler's steps per epoch.
 * The host probes (free memory, platform, physical cores) are inputs.
 */
module Loader {
  import opened Wrappers

  /** `1024 ** 3`: bytes per GB in `virtual_memory().available / (1024 ** 3)`. */
  const BytesPerGB: nat := 1073741824

  /** The dataset stays in memory when at least this many GB are free. */
  const InMemoryThresholdGB: real := 32.0

  /** Workers used when the host has many physical cores. */
  const MaxWorkers: nat := 8

  datatype LoaderSettings = LoaderSettings(keepInMemory: bool, pinMemory: bool, numWorkers: nat)

  /** `cpu_count(logical=False)` may return None, and `None >= 16` raises TypeError. */
  datatype ProbeError = PhysicalCoresUnknown

  /** `math.ceil`/`np.ceil` on an exact value. */
  function Ceil(x: real): int
  {
    -((-x).Floor)
  }

  /** Lines 144-162: loader settings from free memory, the platform and the physical core count. */
  function LoaderSettingsFor(availableBytes: nat, isWindows: bool, physicalCores: Option<nat>): Result<LoaderSettings, ProbeError>
  {
    var keepInMemory := (availableBytes as real) / (BytesPerGB as real) >= InMemoryThresholdGB;
    var pinMemory := !isWindows;
    if isWindows then Ok(LoaderSettings(keepInMemory, pinMemory, 0))
    else match physicalCores
      case None => Err(PhysicalCoresUnknown)
      case Some(cores) => Ok(LoaderSettings(keepInMemory, pinMemory, if cores >= 16 then MaxWorkers else cores / 2))
  }

  /** Lines 232-234: `batch_size_per_gpu` times the process count, or alone when no process is counted. */
  function TotalBatchSize(numProcesses: int, batchSizePerGpu: nat): nat
  {
    if numProcesses >= 1 then numProcesses * batchSizePerGpu else batchSizePerGpu
  }

  /** Lines 236-237: `int(np.ceil(n // total_batch_size))`. */
  function StepsPerEpoch(datasetLen: nat, totalBatchSize: nat): int
    requires totalBatchSize >= 1
  {
    Ceil((datasetLen / totalBatchSize) as real)
  }

  /** Line 244: `int(np.ceil(n / (batch_size * accumulation_steps)))`, true division then ceiling. */
  function SchedulerStepsPerEpoch(datasetLen: nat, batchSize: nat, accumulationSteps: nat): int
    requires batchSize >= 1 && accumulationSteps >= 1
  {
    Ceil((datasetLen as real) / ((batchSize * accumulationSteps) as real))
  }

  /** The batches a single-process `DataLoader` without `drop_last` yields per epoch. */
  function BatchesPerEpoch(datasetLen: nat, batchSize: nat): nat
    requires batchSize >= 1
  {
    (datasetLen + batchSize - 1) / batchSize
  }

  // ---------------------------------------------------------------------------
  // Lemmas

  lemma CeilOfInt(n: int)
    ensures Ceil(n as real) == n
  {
  }

  /** `Ceil` is the least integer not below its argument. */
  lemma CeilBounds(x: real)
    ensures (Ceil(x) - 1) as real < x <= Ceil(x) as real
  {
  }

  /**
   * The dataset stays in memory exactly when at least 32 GB (32 * 1024^3 bytes) are free;
   * memory is pinned exactly off Windows; Windows uses no worker, other hosts use
   * half the physical cores capped at 8; the only failure is an unknown core count off Windows.
   */
  lemma LoaderSettingsMeaning(availableBytes: nat, isWindows: bool, physicalCores: Option<nat>)
    ensures var r := LoaderSettingsFor(availableBytes, isWindows, physicalCores);
      && (r.Err? <==> !isWindows && physicalCores.None?)
      && (r.Ok? ==>
        && (r.value.keepInMemory <==> availableBytes >= 32 * BytesPerGB)
        && (r.value.pinMemory <==> !isWindows)
        && r.value.numWorkers <= MaxWorkers
        && (isWindows ==> r.value.numWorkers == 0)
        && (!isWindows ==> r.value.numWorkers == Min(MaxWorkers, physicalCores.value / 2)))
  {
    var ratio := (availableBytes as real) / (BytesPerGB as real);
    assert ratio * (BytesPerGB as real) == availableBytes as real;
    assert ratio >= InMemoryThresholdGB <==> availableBytes >= 32 * BytesPerGB;
  }

  function Min(a: int, b: int): int
  {
    if a <= b then a else b
  }

  /** The total batch is a whole number of per-device batches: one per process, at least one. */
  lemma TotalBatchSizeMeaning(numProcesses: int, batchSizePerGpu: nat)
    ensures TotalBatchSize(numProcesses, batchSizePerGpu) == (if numProcesses >= 1 then numProcesses else 1) * batchSizePerGpu
    ensures batchSizePerGpu >= 1 ==> TotalBatchSize(numProcesses, batchSizePerGpu) >= batchSizePerGpu
  {
  }

  /** The ceiling of a floor division changes nothing: the number of whole total batches. */
  lemma StepsPerEpochIsFloor(datasetLen: nat, totalBatchSize: nat)
    requires totalBatchSize >= 1
    ensures StepsPerEpoch(datasetLen, totalBatchSize) == datasetLen / totalBatchSize
    ensures StepsPerEpoch(datasetLen, totalBatchSize) * totalBatchSize <= datasetLen
    ensures datasetLen < (StepsPerEpoch(datasetLen, totalBatchSize) + 1) * totalBatchSize
  {
    CeilOfInt(datasetLen / totalBatchSize);
  }

  /** The scheduler counts the accumulated batches needed to cover the dataset, the last one partial. */
  lemma SchedulerStepsIsCeiling(datasetLen: nat, batchSize: nat, accumulationSteps: nat)
    requires batchSize >= 1 && accumulationSteps >= 1
    ensures var d := batchSize * accumulationSteps;
      var r := SchedulerStepsPerEpoch(datasetLen, batchSize, accumulationSteps);
      && r == (datasetLen + d - 1) / d
      && datasetLen <= r * d
      && (r - 1) * d < datasetLen
  {
    var d := batchSize * accumulationSteps;
    var r := SchedulerStepsPerEpoch(datasetLen, batchSize, accumulationSteps);
    CeilOfQuotientBounds(datasetLen, d);
    CeilingDivisionUnique(datasetLen, d, r);
  }

  /**
   * `OneCycleLR` rejects a non-positive `steps_per_epoch`; the value of line 244 is
   * positive exactly when the training set is not empty, so a training set the
   * loader accepted always gives the scheduler a step.
   */
  lemma SchedulerStepsPositive(datasetLen: nat, batchSize: nat, accumulationSteps: nat)
    requires batchSize >= 1 && accumulationSteps >= 1
    ensures SchedulerStepsPerEpoch(datasetLen, batchSize, accumulationSteps) >= 1 <==> datasetLen >= 1
  {
    var d := batchSize * accumulationSteps;
    var r := SchedulerStepsPerEpoch(datasetLen, batchSize, accumulationSteps);
    SchedulerStepsIsCeiling(datasetLen, batchSize, accumulationSteps);
    if datasetLen == 0 {
      MulLessCancel(r - 1, 0, d);
    } else if r < 1 {
      MulLessCancel(0, r, d);
    }
  }

  lemma CeilOfQuotientBounds(n: nat, d: nat)
    requires d >= 1
    ensures var r := Ceil((n as real) / (d as real));
      (r - 1) * d < n <= r * d
  {
    var x := (n as real) / (d as real);
    var r := Ceil(x);
    CeilBounds(x);
    assert x * (d as real) == n as real;
    assert ((r - 1) as real) * (d as real) < x * (d as real);
    assert x * (d as real) <= (r as real) * (d as real);
    assert ((r - 1) * d) as real == ((r - 1) as real) * (d as real);
    assert (r * d) as real == (r as real) * (d as real);
  }

  lemma CeilingDivisionUnique(n: nat, d: nat, r: int)
    requires d >= 1
    requires (r - 1) * d < n <= r * d
    ensures r == (n + d - 1) / d
  {
    var q := (n + d - 1) / d;
    assert q * d <= n + d - 1 < (q + 1) * d;
    assert r * d < (q + 1) * d by {
      assert r * d == (r - 1) * d + d;
    }
    assert (q - 1) * d < r * d by {
      assert (q - 1) * d == q * d - d;
    }
    MulLessCancel(r, q + 1, d);
    MulLessCancel(q - 1, r, d);
  }

  lemma MulLessCancel(a: int, b: int, d: nat)
    requires d >= 1 && a * d < b * d
    ensures a < b
  {
    assert (b - a) * d == b * d - a * d > 0;
  }
}
