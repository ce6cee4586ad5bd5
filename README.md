# ChatTrainer rules, modelled in Dafny

This project models the decision logic of `ChatTrainer` in `model/trainer.py`. That class is the training
driver of a small Chinese T5 chat model. Most of the class is glue around torch, accelerate, the tokenizer
and a progress bar. The model keeps the rules inside that glue that can be stated exactly:

- **Checkpoint retention** (`delete_early_checkpoint`), module `Checkpoints`, file `checkpoint.dfy`:
  - it derives the checkpoint directory from the `model_file` template;
  - interrupt checkpoints (`exit_save` in the path) are never eligible;
  - the epoch is read from the second-to-last `.` field, and files from later epochs are skipped;
  - the rest is sorted by creation time, a stable sort done in place on an array;
  - for `keep_latest_n >= 1`, it selects every eligible file but the newest `keep_latest_n` (0 removes nothing; see
    Findings).
- **Step schedule and label masking** in one epoch of `train`, module `Schedule`, file `schedule.dfy`:
  - pad targets are overwritten with -100 in place;
  - the optimizer, scheduler and zero-grad run every `gradient_accumulation_steps` steps;
  - a loss sample is taken every 50 steps and at `step == steps_per_epoch`.
- **Best-epoch bookkeeping** (`best_bleu4`, `best_epoch` with `>=`), module `Best`, file `best.dfy`.
- **Loader and batch arithmetic**, module `Loader`, file `loader.dfy`:
  - keep-in-memory, pin-memory and the worker count;
  - the total batch size, `steps_per_epoch` and the scheduler's steps per epoch.
- **The SIGINT decision** of `process_exit_handler`, module `Interrupt`, file `interrupt.dfy`.
- **Evaluation score collection**, module `Evaluation`, file `evaluation.dfy`:
  - space stripping;
  - the per-batch BLEU-4 list, which as written keeps only the last batch's scores, twice.
- **The `ChatTrainer` object**, module `Trainer`, file `trainer.dfy`:
  - its state is whether the model and accelerator are set, and which checkpoints `save_model` has written;
  - `save_model`, the interrupt handler and the epoch loop of `train` are methods that change that state.

Python's string operations are written out in `text.dfy` (module `Text`): `split`, `'/'.join`, substring
`in`, `replace`, ASCII `lower`, `int()` and `str()` of a natural number. `wrappers.dfy` holds the `Option` and
`Result` types used for Python's exceptions and `None`.

The host probes are parameters, not calls: free memory, the platform and `cpu_count`. The same holds for the
directory listing with creation times, the terminal answer, the timestamp and each epoch's validation score.
The outcomes are values: removed paths, exit decisions and status, and checkpoints written.

On a tie, the `>=` at line 369 makes the later epoch `best_epoch`; see `Best.TieGoesToLaterEpoch`.

## Model

| member | source | states |
|---|---|---|
| Checkpoints.DeleteEarlyCheckpoint | model/trainer.py:105-133 | The listed directory is the template's directory. It fails exactly when the selection fails, with the same error. Otherwise the removed paths are exactly the paths of `PruneSelection`, built by a filter loop, an in-place sort and a collecting loop. |
| Checkpoints.SortByCreationTime | model/trainer.py:126 | Sorting in place leaves the array equal to the stable sort by creation time of its old contents. |
| Checkpoints.InsertAt | model/trainer.py:126 | One insertion step puts element i into the sorted prefix after every entry created no later than it, and leaves the rest unchanged. |
| Checkpoints.SortedByTimeSorted | model/trainer.py:126 | The sorted list is ascending by creation time. |
| Checkpoints.SortedByTimePermutation | model/trainer.py:126 | The sorted list is a permutation of its input. |
| Checkpoints.InsertByTimeSorted | model/trainer.py:126 | Inserting into an ascending list keeps it ascending. |
| Checkpoints.InsertByTimeMultiset | model/trainer.py:126 | Inserting adds exactly that one entry. |
| Checkpoints.EligibleMeaning | model/trainer.py:115-124 | The filter loop fails iff some non-`exit_save` entry has no integer second-to-last `.` field. Otherwise it keeps exactly the listed non-`exit_save` entries whose epoch is at most `epoch`. |
| Checkpoints.EligibleAbortsOnError | model/trainer.py:116-121 | The first entry whose epoch does not parse aborts the whole call with its error, whatever `keep_latest_n` is. |
| Checkpoints.EligibleErrorPersists | model/trainer.py:116-121 | Once a prefix of the listing fails, the whole listing fails with the same error. |
| Checkpoints.PruneOnlyEligible | model/trainer.py:115-133 | Every removed entry was listed, is not an interrupt checkpoint, and has a parsed epoch at most `epoch`. |
| Checkpoints.ExitCheckpointNeverRemoved | model/trainer.py:115-118 | A checkpoint saved under an `exit_save_<stamp>` tag is never among the removed paths, for any template and stamp. |
| Checkpoints.PruneNothingWhenFew | model/trainer.py:128-129 | With no more eligible files than `keep_latest_n`, nothing is removed. |
| Checkpoints.PruneNothingWhenKeepZero | model/trainer.py:131 | With `keep_latest_n == 0` the slice `[0:-0]` is empty, so nothing is removed. |
| Checkpoints.PruneRemovesOldest | model/trainer.py:126-133 | With `keep_latest_n >= 1` and N > `keep_latest_n` eligible files, the N - `keep_latest_n` oldest are removed. The `keep_latest_n` newest survive, and together the two parts are all eligible files. |
| Checkpoints.PruneNegativeKeep | model/trainer.py:131 | A negative `keep_latest_n` removes the oldest abs(`keep_latest_n`) eligible files, or all of them. |
| Checkpoints.CheckpointDirMeaning | model/trainer.py:109-111 | The directory has no backslash. It is empty when the path has no `/`. Otherwise the path is that directory, a `/`, and a last field without `/`. |
| Checkpoints.EpochCheckpointParses | model/trainer.py:95-103 | The second-to-last `.` field of a checkpoint written for epoch e under a `<name>.{}.<ext>` template parses back to e. |
| Checkpoints.EpochCheckpointEligible | model/trainer.py:116-122 | Such a listed checkpoint is selected by the filter iff e <= `epoch`. |
| Checkpoints.PruneIntendedKeepsNewest | model/trainer.py:105-133 | The corrected rule removes all but the newest `keep_latest_n` eligible files, and all of them for zero. |
| Checkpoints.KeepZeroRemovesNothing | model/trainer.py:131 | For one eligible checkpoint and `keep_latest_n == 0`, the code as written removes nothing. The corrected rule removes it. |
| Text.JoinSplit | model/trainer.py:111 | `'/'.join(s.split('/')) == s`. |
| Text.SplitFieldsFree | model/trainer.py:111 | No field of `split(sep)` contains `sep`. |
| Text.SplitAround | model/trainer.py:121 | Splitting at a separator placed between two strings splits each side separately. |
| Text.ParseDecimal | model/trainer.py:121 | `int(str(n)) == n` for every natural n. |
| Text.NatToDecimalDigits | model/trainer.py:102 | `str(n)` is a non-empty string of digits whose value is n. |
| Text.ContainedCharsOccur | model/trainer.py:118 | A string containing `p` contains each character of `p`. |
| Text.ContainsInfix | model/trainer.py:118 | `p in a + p + b`. |
| Text.ReplaceChar | model/trainer.py:110 | `replace` of one character keeps the length and leaves none of the replaced character. |
| Text.RemoveCharCounts | model/trainer.py:434-435 | `s.replace(' ', '')` leaves no space and keeps every other character as often as before. |
| Text.RemoveCharAppend | model/trainer.py:434-435 | Removal distributes over concatenation, so kept characters stay in order. |
| Text.RemoveCharAbsent | model/trainer.py:434-435 | A string without the character is unchanged. |
| Text.IndexOf | model/trainer.py:111 | The result is the first index of the character, or -1 iff it does not occur. |
| Loader.LoaderSettingsMeaning | model/trainer.py:144-162 | Keep in memory iff at least 32 * 1024^3 bytes are free. Pin memory iff not Windows. Workers: 0 on Windows, otherwise min(8, cores // 2), so never more than 8. The only failure is an unknown core count off Windows. |
| Loader.TotalBatchSizeMeaning | model/trainer.py:232-234 | The total batch is `batch_size_per_gpu` times the process count, or times 1 without processes. It is at least one per-device batch. |
| Loader.StepsPerEpochIsFloor | model/trainer.py:236 | `int(np.ceil(n // b))` is the floor n // b, the number of whole total batches. |
| Loader.SchedulerStepsIsCeiling | model/trainer.py:244 | The scheduler's steps per epoch is the least r with n <= r * batch * accumulation, i.e. (n + d - 1) // d. |
| Loader.SchedulerStepsPositive | model/trainer.py:240-247 | The steps per epoch handed to `OneCycleLR` are positive iff the training set is not empty, so once line 179 has accepted the training set the scheduler never sees 0 steps. |
| Loader.CeilBounds | model/trainer.py:244 | `ceil(x)` is the least integer not below x. |
| Schedule.MaskPadTargets | model/trainer.py:307 | In place: each element equal to the pad id becomes -100, and every other element and the length are unchanged. |
| Schedule.MaskedIdempotent | model/trainer.py:307 | Masking twice is masking once. No pad id survives unless it is -100 itself. |
| Schedule.RunEpoch | model/trainer.py:301-335 | One epoch's loop: the labels at each step are that batch's masked targets. The update steps are `UpdateSteps` and the loss samples are `LossSamples` of that epoch alone. |
| Schedule.UpdateStepsMeaning | model/trainer.py:321-326 | Optimizer, scheduler and zero-grad run exactly at the steps s < n with s % `accumulation_steps` == 0, in increasing order. |
| Schedule.FirstStepUpdates | model/trainer.py:321 | Step 0 of every non-empty epoch updates. |
| Schedule.UpdateStepsCount | model/trainer.py:321 | An epoch of n steps makes ceil(n / `accumulation_steps`) optimizer steps. |
| Schedule.LossSamplesMeaning | model/trainer.py:332-335 | A sample `(s, loss of step s)` is taken exactly when s % 50 == 0 or s == `steps_per_epoch`. Samples carry their step's loss and come in step order. |
| Schedule.FinalStepLoggedIff | model/trainer.py:332 | With `steps_per_epoch` from line 236, on one process the last step n - 1 is logged iff it is a multiple of 50 or the dataset length is not a multiple of the batch size. |
| Schedule.FinalStepNotLogged | model/trainer.py:332 | 100 samples in batches of 10: ten steps, `steps_per_epoch == 10`, and step 9 is not logged. |
| Schedule.IntendedLogsFinalStep | model/trainer.py:332 | With the corrected gate, the last sample of every non-empty epoch is its final step. |
| Best.BestOfMeaning | model/trainer.py:369-371 | Starting from 0.0 and epoch 0, `best_bleu4` is max(0.0, all scores so far). When some score is >= 0, `best_epoch` scored exactly `best_bleu4` and every later epoch scored less, so the latest maximal epoch wins. Otherwise both keep their initial values. |
| Best.BestNeverDecreases | model/trainer.py:369-371 | `best_bleu4` never decreases from one epoch to the next. |
| Best.TieGoesToLaterEpoch | model/trainer.py:369 | Two equal non-negative scores make epoch 1 the best epoch. |
| Evaluation.StripSpacesMeaning | model/trainer.py:434-435 | Stripping keeps the number of sentences. Each result has no space and every other character as often as before. Stripping twice is stripping once. |
| Evaluation.BatchScoresMeaning | model/trainer.py:439 | A batch fails with IndexError exactly when it has fewer outputs than references. Otherwise there is one score per reference: BLEU-4 of the stripped reference against the stripped output at the same index. |
| Evaluation.CollectScores | model/trainer.py:410-440 | The validation loop computes `ScoresAsWritten`. |
| Evaluation.EvaluationAborts | model/trainer.py:439 | The first batch lacking an output aborts evaluation with that error. |
| Evaluation.ScoresAsWrittenMeaning | model/trainer.py:439-444 | The list is empty for an empty loader. It is an error iff some batch lacks an output. Otherwise it is the last batch's scores twice. |
| Evaluation.ScoresIgnoreEarlierBatches | model/trainer.py:439-440 | Earlier batches do not affect the final list. |
| Evaluation.ScoresAccumulatedAppend | model/trainer.py:439-440 | Corrected collection: scoring two runs of batches concatenates their lists. |
| Evaluation.ScoresAccumulatedCount | model/trainer.py:439-440 | Corrected collection fails exactly when the code as written does. Otherwise it has one score per reference sentence. |
| Evaluation.EarlierBatchScoresLost | model/trainer.py:439-440 | With exact-match scoring, batches (a, a) then (a, b) give [0.0, 0.0] as written and [1.0, 0.0] as intended. |
| Interrupt.AffirmativeMeaning | model/trainer.py:82 | An answer confirms iff it is `y` or `yes` in any letter case. |
| Interrupt.ExitDecisionMeaning | model/trainer.py:77-93 | Save-and-exit iff started and main and confirmed. Resume iff started and main and not confirmed. Exit at once iff not both started and main. Both exits have status 0, and only resuming returns. |
| Interrupt.ExitAnswers | model/trainer.py:82 | "Y" and "YeS" save; "n", "" and "yess" resume; a non-main process exits. |
| Trainer.ChatTrainer.constructor | model/trainer.py:55-66 | A new trainer has no model or accelerator and has written no checkpoint. |
| Trainer.ChatTrainer.SaveModel | model/trainer.py:95-103 | A checkpoint with the tag is written iff the model and accelerator are set. Nothing else changes. |
| Trainer.ChatTrainer.ProcessExitHandler | model/trainer.py:73-93 | The decision and status are those of `ExitDecision`. Exactly one `exit_save_<stamp>` checkpoint is written when saving, and none otherwise. |
| Trainer.ChatTrainer.EndOfEpoch | model/trainer.py:354-378 | The best is updated with `>=`. The main process writes the epoch's checkpoint once, and again when it became the best. |
| Trainer.ChatTrainer.EpochLoop | model/trainer.py:289-387 | Epoch `e` records the update steps and loss samples of its batches, its score, and the best of epochs `0..e`. The final best is `BestOf(scores)`. The main process appends exactly `TrainSaves(scores)` to the checkpoints written, and other processes append nothing. |
| Trainer.ChatTrainer.Train | model/trainer.py:136-387 | Fails, before anything is set, iff the core count is unknown off Windows, the training set is empty, the batch size is 0, accumulation is 0 or there are 0 epochs. The error is the first of these, in that order, which is the order the code meets them. Otherwise the scheduler gets at least one step per epoch. Otherwise it returns the loader settings, `steps_per_epoch == n // total_batch_size` and the scheduler's steps. Each epoch's updates and a freshly reset `epoch_loss_list` are recorded, with each epoch's best so far. The final best is `BestOf(scores)`, and the main process has written exactly `TrainSaves(scores)`. |
| Trainer.TrainSavesMeaning | model/trainer.py:354-378 | A run writes a checkpoint for every epoch and for nothing but its own epochs. |
| Trainer.BestEpochSavedTwice | model/trainer.py:354-378 | When some score is >= 0, the best epoch's checkpoint is written exactly twice. |

## Left out

- Tensor numerics are abstracted: model forward/backward, loss scaling, Adafactor, OneCycleLR internals and `clip_grad_norm_`. Each batch carries the loss its forward pass reports.
- The accelerate plumbing is absent: `prepare`, `wait_for_everyone`, `gather_for_metrics`, `unwrap_model` and `backward`. The process count and the main-process flag are parameters, and processes are not modelled together.
- File and host I/O are inputs or outputs: `torch.save`/`torch.load`, `os.remove`, the directory listing, free memory and disk, `cpu_count`, `platform`.
- The listing is any sequence of `(path, creation time)` pairs. It is not tied to the directory the code computes. Creation times are reals that are only compared.
- Interactive and OS I/O are parameters or outcomes: `signal.signal`, `input()`, `sys.exit` and `time.strftime`. The answer and the stamp are parameters, and the exit status is an outcome. An end of input at the prompt is not modelled.
- Decoding and BLEU-4 are collaborators whose source is not part of this model. Batches arrive decoded, and BLEU-4 is an arbitrary function of (reference, output).
- `my_average` is not part of this model. Each epoch's score is a parameter of `Train`, and the average of an empty list is not assumed.
- Progress bars, `Logger` and `print_and_log` are output sinks and are left out. So are the loss sample's conversion to numpy and the `eval_steps` count, which only feeds the progress bar.
- `transformers_trainer` has no logic, and the seeding calls have no effect on the rules modelled.
- `test` repeats the space stripping and score collection of `evaluate`, which is modelled once. Its own loader settings (one worker off Windows) and checkpoint loading are left out.
- A batch's 2-D `target_ids` tensor is flattened to one sequence. Masking is elementwise, so the result is the same.
- Text.ParseInt: Python's `int()` also accepts surrounding whitespace, underscores and non-ASCII digits. The model accepts only an optional sign followed by ASCII digits.
- Text.Lower: only ASCII letters are lowered. `str.lower` on other Unicode letters is not modelled.
- Loader.SchedulerStepsPerEpoch: true division is exact on reals. The rounding of a float division is not modelled. `OneCycleLR`'s rejection of zero steps cannot happen: an empty training set is refused first, at line 179.
- Loader.LoaderSettingsFor: `cpu_count(logical=False)` returning `None` is modelled as the `TypeError` that `None >= 16` raises.
- Trainer.ChatTrainer.Train: the stops are modelled as `TrainError` values, not as Python exceptions. An empty training set is the `ValueError` of the shuffled `DataLoader` at line 179. Its sampler is built before the batch sampler, which then refuses a batch size of 0, also with a `ValueError`. An accumulation of 0 is modelled as the `ZeroDivisionError` of line 244; `Accelerator` at line 204 is not part of this model and may refuse it first. 0 epochs is the `ValueError` of `OneCycleLR` at line 240. `torch`'s sampler and scheduler are not part of this model; their checks are taken from their documented behaviour. A negative epoch count cannot be expressed, since the count is a natural number. One score and one batch sequence are given per epoch.
- `delete_early_checkpoint` is modelled on its own. Its only call, on line 377, is commented out, so `Train` never prunes.

## Findings

| source | as written | input that shows it | evidently intended | confidence | as-written member | corrected member |
|---|---|---|---|---|---|---|
| model/trainer.py:131 | `train_save_model_fils[0: -keep_latest_n]` with `keep_latest_n == 0` is `[0:0]`, which removes nothing | one eligible checkpoint `model.1.pth`, `epoch = 1`, `keep_latest_n = 0` | keep only the newest `keep_latest_n` files, so zero removes them all | not executed | Checkpoints.KeepZeroRemovesNothing | Checkpoints.PruneIntendedKeepsNewest |
| model/trainer.py:332 | `step == steps_per_epoch` with `steps_per_epoch = n // total_batch_size`, but `enumerate` yields steps 0 .. ceil(n / b) - 1 | 100 samples, batch size 10, one process: steps 0-9, `steps_per_epoch == 10`, the final step 9 is not logged | log the last step of every epoch | not executed | Schedule.FinalStepNotLogged | Schedule.IntendedLogsFinalStep |
| model/trainer.py:439-440 | `bleu4_scores` is rebound to the current batch's scores and then extended with itself | two batches, first an exact match and then a mismatch: the list is [0.0, 0.0] instead of [1.0, 0.0] | accumulate every batch's scores once | not executed | Evaluation.EarlierBatchScoresLost | Evaluation.ScoresAccumulatedAppend |
