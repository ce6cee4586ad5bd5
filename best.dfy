/**
 * Best-epoch bookkeeping of `ChatTrainer.train`: `best_bleu4` starts at 0.0 and
 * `best_epoch` at 0, and after each epoch a score at least as high as the best so
 * far replaces both. Scores are only compared.
 */
module Best {

  datatype BestSoFar = BestSoFar(bleu4: real, epoch: nat)

  /** Lines 260-261. */
  const Initial: BestSoFar := BestSoFar(0.0, 0)

  /** Lines 369-371: `if cur_bleu4_score >= best_bleu4`. */
  function Update(best: BestSoFar, epoch: nat, score: real): BestSoFar
  {
    if score >= best.bleu4 then BestSoFar(score, epoch) else best
  }

  /** The bookkeeping after the epochs with these scores (epoch e scored `scores[e]`). */
  function BestOf(scores: seq<real>): BestSoFar
  {
    if scores == [] then Initial
    else Update(BestOf(scores[..|scores| - 1]), |scores| - 1, scores[|scores| - 1])
  }

  /**
   * `best_bleu4` is max(0.0, every score so far); when some score reached it,
   * `best_epoch` is an epoch scoring exactly `best_bleu4` and every later epoch
   * scored strictly less, so on a tie the latest epoch wins; otherwise both keep
   * their initial values.
   */
  lemma {:induction false} BestOfMeaning(scores: seq<real>)
    ensures BestOf(scores).bleu4 >= 0.0
    ensures forall e :: 0 <= e < |scores| ==> scores[e] <= BestOf(scores).bleu4
    ensures (forall e :: 0 <= e < |scores| ==> scores[e] < 0.0) ==> BestOf(scores) == Initial
    ensures (exists e :: 0 <= e < |scores| && scores[e] >= 0.0) ==>
      && BestOf(scores).epoch < |scores|
      && scores[BestOf(scores).epoch] == BestOf(scores).bleu4
      && forall e :: BestOf(scores).epoch < e < |scores| ==> scores[e] < BestOf(scores).bleu4
  {
    if scores != [] {
      var init := scores[..|scores| - 1];
      BestOfMeaning(init);
      forall e | 0 <= e < |init|
        ensures scores[e] == init[e]
      {
      }
      if exists e :: 0 <= e < |scores| && scores[e] >= 0.0 {
        if forall e :: 0 <= e < |init| ==> init[e] < 0.0 {
          assert scores[|scores| - 1] >= 0.0;
        }
      }
    }
  }

  /** `best_bleu4` never decreases from one epoch to the next. */
  lemma BestNeverDecreases(scores: seq<real>, next: real)
    ensures BestOf(scores).bleu4 <= BestOf(scores + [next]).bleu4
  {
    assert (scores + [next])[..|scores|] == scores;
  }

  /** Two equal scores: the second epoch becomes the best one. */
  lemma TieGoesToLaterEpoch(score: real)
    requires score >= 0.0
    ensures BestOf([score, score]) == BestSoFar(score, 1)
  {
    assert [score, score][..1] == [score];
    assert [score][..0] == [];
    assert BestOf([score]) == BestSoFar(score, 0);
  }
}
