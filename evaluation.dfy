/**
 * Score collection of `ChatTrainer.evaluate` (and its copy in `ChatTrainer.test`):
 * each validation batch is decoded to strings, every space is stripped from the
 * generated and the reference sentences, and a BLEU-4 score is computed per
 * sentence pair. Decoding and the BLEU-4 function are collaborators: a batch
 * arrives already decoded, and BLEU-4 is an arbitrary function of
 * (reference, output).
 */
module Evaluation {
  import opened Wrappers
  import opened Text

  /** One batch after `decode_batch`: the generated sentences and the reference sentences. */
  datatype DecodedBatch = DecodedBatch(outputs: seq<string>, targets: seq<string>)

  /** `outputs[i]` for an `i` past the generated sentences raises IndexError. */
  datatype EvalError = OutputMissing(index: nat)

  /** `[sentance.replace(' ', '') for sentance in sentences]`. */
  function StripSpaces(sentences: seq<string>): (r: seq<string>)
    ensures |r| == |sentences|
  {
    seq(|sentences|, i requires 0 <= i < |sentences| => RemoveChar(sentences[i], ' '))
  }

  /**
   * The comprehension over `range(len(target_ids))` for one batch, after stripping:
   * the score of each reference against the output at the same position.
   */
  function BatchScores(batch: DecodedBatch, bleu: (string, string) -> real): Result<seq<real>, EvalError>
  {
    var outputs := StripSpaces(batch.outputs);
    var targets := StripSpaces(batch.targets);
    if |outputs| < |targets| then Err(OutputMissing(|outputs|))
    else Ok(seq(|targets|, i requires 0 <= i < |targets| => bleu(targets[i], outputs[i])))
  }

  /**
   * `bleu4_scores` after the loop as written: rebound to each batch's scores, then
   * extended with itself; the first failing batch aborts the loop.
   */
  function ScoresAsWritten(batches: seq<DecodedBatch>, bleu: (string, string) -> real): Result<seq<real>, EvalError>
  {
    if batches == [] then Ok([])
    else match ScoresAsWritten(batches[..|batches| - 1], bleu)
      case Err(e) => Err(e)
      case Ok(_) =>
        match BatchScores(batches[|batches| - 1], bleu)
        case Err(e) => Err(e)
        case Ok(scores) => Ok(scores + scores)
  }

  /** Lines 410-440: the validation loop that builds `bleu4_scores`. */
  method CollectScores(batches: seq<DecodedBatch>, bleu: (string, string) -> real)
    returns (r: Result<seq<real>, EvalError>)
    ensures r == ScoresAsWritten(batches, bleu)
  {
    var bleu4Scores: seq<real> := [];
    var step := 0;
    while step < |batches|
      invariant 0 <= step <= |batches|
      invariant ScoresAsWritten(batches[..step], bleu) == Ok(bleu4Scores)
    {
      assert batches[..step + 1][..step] == batches[..step];
      var outputs := StripSpaces(batches[step].outputs);
      var targets := StripSpaces(batches[step].targets);
      if |outputs| < |targets| {
        EvaluationAborts(batches, bleu, step);
        return Err(OutputMissing(|outputs|));
      }
      bleu4Scores := seq(|targets|, i requires 0 <= i < |targets| => bleu(targets[i], outputs[i]));
      bleu4Scores := bleu4Scores + bleu4Scores;
      step := step + 1;
    }
    assert batches[..|batches|] == batches;
    return Ok(bleu4Scores);
  }

  // ---------------------------------------------------------------------------
  // Lemmas: space stripping

  /** Stripping removes every space and keeps every other character, as often as before and in order. */
  lemma StripSpacesMeaning(sentences: seq<string>)
    ensures forall i :: 0 <= i < |sentences| ==>
      && ' ' !in StripSpaces(sentences)[i]
      && multiset(StripSpaces(sentences)[i]) == multiset(sentences[i])[' ' := 0]
    ensures StripSpaces(StripSpaces(sentences)) == StripSpaces(sentences)
  {
    forall i | 0 <= i < |sentences|
      ensures ' ' !in StripSpaces(sentences)[i]
      ensures multiset(StripSpaces(sentences)[i]) == multiset(sentences[i])[' ' := 0]
      ensures RemoveChar(StripSpaces(sentences)[i], ' ') == StripSpaces(sentences)[i]
    {
      RemoveCharCounts(sentences[i], ' ');
      RemoveCharAbsent(StripSpaces(sentences)[i], ' ');
    }
  }

  // ---------------------------------------------------------------------------
  // Lemmas: the score list as written

  /** A batch fails exactly when it has fewer generated than reference sentences, and then at the first missing one. */
  lemma BatchScoresMeaning(batch: DecodedBatch, bleu: (string, string) -> real)
    ensures BatchScores(batch, bleu).Err? <==> |batch.outputs| < |batch.targets|
    ensures BatchScores(batch, bleu).Err? ==> BatchScores(batch, bleu).error == OutputMissing(|batch.outputs|)
    ensures BatchScores(batch, bleu).Ok? ==>
      var scores := BatchScores(batch, bleu).value;
      && |scores| == |batch.targets|
      && forall i :: 0 <= i < |scores| ==>
        scores[i] == bleu(RemoveChar(batch.targets[i], ' '), RemoveChar(batch.outputs[i], ' '))
  {
  }

  lemma {:induction false} EvaluationAborts(batches: seq<DecodedBatch>, bleu: (string, string) -> real, step: nat)
    requires step < |batches|
    requires ScoresAsWritten(batches[..step], bleu).Ok?
    requires |batches[step].outputs| < |batches[step].targets|
    ensures ScoresAsWritten(batches, bleu) == Err(OutputMissing(|batches[step].outputs|))
    decreases |batches|
  {
    if step + 1 < |batches| {
      var init := batches[..|batches| - 1];
      assert init[..step] == batches[..step];
      EvaluationAborts(init, bleu, step);
    } else {
      assert batches[..|batches| - 1] == batches[..step];
    }
  }

  /**
   * The list the average is taken over: empty when the loader yields nothing, an
   * error when some batch lacks an output, and otherwise the last batch's scores
   * twice; earlier batches leave no trace.
   */
  lemma {:induction false} ScoresAsWrittenMeaning(batches: seq<DecodedBatch>, bleu: (string, string) -> real)
    ensures batches == [] ==> ScoresAsWritten(batches, bleu) == Ok([])
    ensures ScoresAsWritten(batches, bleu).Err? <==>
      exists k :: 0 <= k < |batches| && |batches[k].outputs| < |batches[k].targets|
    ensures ScoresAsWritten(batches, bleu).Ok? && batches != [] ==>
      var last := BatchScores(batches[|batches| - 1], bleu);
      last.Ok? && ScoresAsWritten(batches, bleu).value == last.value + last.value
  {
    if batches != [] {
      var init := batches[..|batches| - 1];
      ScoresAsWrittenMeaning(init, bleu);
      BatchScoresMeaning(batches[|batches| - 1], bleu);
      forall k | 0 <= k < |init|
        ensures init[k] == batches[k]
      {
      }
      if ScoresAsWritten(batches, bleu).Err? && ScoresAsWritten(init, bleu).Ok? {
        assert |batches[|batches| - 1].outputs| < |batches[|batches| - 1].targets|;
      }
    }
  }

  /** Whatever the earlier batches held, only the last one counts. */
  lemma ScoresIgnoreEarlierBatches(earlier: seq<DecodedBatch>, last: DecodedBatch, bleu: (string, string) -> real)
    requires ScoresAsWritten(earlier, bleu).Ok? && BatchScores(last, bleu).Ok?
    ensures ScoresAsWritten(earlier + [last], bleu) == ScoresAsWritten([last], bleu)
  {
    assert (earlier + [last])[..|earlier|] == earlier;
    assert [last][..0] == [];
  }

  // ---------------------------------------------------------------------------
  // Finding: scores of earlier batches are dropped

  /** The evident intent: every batch's scores appended once, in loader order. */
  function ScoresAccumulated(batches: seq<DecodedBatch>, bleu: (string, string) -> real): Result<seq<real>, EvalError>
  {
    if batches == [] then Ok([])
    else match ScoresAccumulated(batches[..|batches| - 1], bleu)
      case Err(e) => Err(e)
      case Ok(prefix) =>
        match BatchScores(batches[|batches| - 1], bleu)
        case Err(e) => Err(e)
        case Ok(scores) => Ok(prefix + scores)
  }

  function TargetCount(batches: seq<DecodedBatch>): nat
  {
    if batches == [] then 0 else TargetCount(batches[..|batches| - 1]) + |batches[|batches| - 1].targets|
  }

  /**
   * With accumulation, a run over two parts scores each part on its own and
   * concatenates; there is one score per reference sentence, and the errors are
   * those of the code as written.
   */
  lemma {:induction false} ScoresAccumulatedAppend(a: seq<DecodedBatch>, b: seq<DecodedBatch>, bleu: (string, string) -> real)
    requires ScoresAccumulated(a, bleu).Ok? && ScoresAccumulated(b, bleu).Ok?
    ensures ScoresAccumulated(a + b, bleu) == Ok(ScoresAccumulated(a, bleu).value + ScoresAccumulated(b, bleu).value)
    decreases |b|
  {
    if b == [] {
      assert a + b == a;
      assert ScoresAccumulated(a, bleu).value + [] == ScoresAccumulated(a, bleu).value;
    } else {
      var init := b[..|b| - 1];
      assert (a + b)[..|a + b| - 1] == a + init;
      assert (a + b)[|a + b| - 1] == b[|b| - 1];
      assert ScoresAccumulated(init, bleu).Ok?;
      ScoresAccumulatedAppend(a, init, bleu);
      var va, vi, vl := ScoresAccumulated(a, bleu).value, ScoresAccumulated(init, bleu).value, BatchScores(b[|b| - 1], bleu).value;
      assert ScoresAccumulated(b, bleu).value == vi + vl;
      assert (va + vi) + vl == va + (vi + vl);
    }
  }

  lemma {:induction false} ScoresAccumulatedCount(batches: seq<DecodedBatch>, bleu: (string, string) -> real)
    ensures ScoresAccumulated(batches, bleu).Err? <==> ScoresAsWritten(batches, bleu).Err?
    ensures ScoresAccumulated(batches, bleu).Ok? ==> |ScoresAccumulated(batches, bleu).value| == TargetCount(batches)
  {
    if batches != [] {
      ScoresAccumulatedCount(batches[..|batches| - 1], bleu);
      BatchScoresMeaning(batches[|batches| - 1], bleu);
    }
  }

  /** A stand-in score: 1.0 for an exact match, 0.0 otherwise. */
  function ExactMatch(reference: string, output: string): real
  {
    if reference == output then 1.0 else 0.0
  }

  /**
   * Two batches of one sentence each under an exact-match score: the first matches,
   * the second does not. As written the list is [0.0, 0.0], so the average is 0;
   * the intended list is [1.0, 0.0].
   */
  lemma EarlierBatchScoresLost()
    ensures var batches := [DecodedBatch(["a"], ["a"]), DecodedBatch(["a"], ["b"])];
      && ScoresAsWritten(batches, ExactMatch) == Ok([0.0, 0.0])
      && ScoresAccumulated(batches, ExactMatch) == Ok([1.0, 0.0])
  {
    var first, second := DecodedBatch(["a"], ["a"]), DecodedBatch(["a"], ["b"]);
    var batches := [first, second];
    assert RemoveChar("a", ' ') == "a";
    assert RemoveChar("b", ' ') == "b";
    assert StripSpaces(["a"]) == ["a"];
    assert StripSpaces(["b"]) == ["b"];
    var s1 := BatchScores(first, ExactMatch).value;
    assert |s1| == 1 && s1[0] == ExactMatch("a", "a") == 1.0;
    assert s1 == [1.0];
    assert BatchScores(first, ExactMatch) == Ok([1.0]);
    var s2 := BatchScores(second, ExactMatch).value;
    assert |s2| == 1 && s2[0] == ExactMatch("b", "a") == 0.0;
    assert s2 == [0.0];
    assert BatchScores(second, ExactMatch) == Ok([0.0]);
    assert batches[..1] == [first];
    assert [first][..0] == [];
    assert [first][0] == first;
    assert ScoresAsWritten([], ExactMatch) == Ok([]);
    assert ScoresAccumulated([], ExactMatch) == Ok([]);
    assert [1.0] + [1.0] == [1.0, 1.0];
    assert [] + [1.0] == [1.0];
    assert ScoresAsWritten([first], ExactMatch) == Ok([1.0, 1.0]);
    assert ScoresAccumulated([first], ExactMatch) == Ok([1.0]);
    assert batches[1] == second;
    assert [1.0] + [0.0] == [1.0, 0.0];
    assert [0.0] + [0.0] == [0.0, 0.0];
  }
}
