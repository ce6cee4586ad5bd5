/**
 * The decision taken by `ChatTrainer.process_exit_handler` on SIGINT. The prompt,
 * the answer read from the terminal, the timestamp and `sys.exit` are outside the
 * model: the answer is a parameter and the outcome a value.
 */
module Interrupt {
  import opened Wrappers
  import opened Text

  /** Save a checkpoint and exit, go on training, or exit at once. */
  datatype Decision = SaveAndExit | Resume | ExitNow

  /** `ins.lower() in ('yes', 'y')`. */
  predicate Affirmative(answer: string)
  {
    Lower(answer) == "yes" || Lower(answer) == "y"
  }

  /**
   * Lines 77-93: `trainingStarted` stands for `self.accelerator` being set (it is set
   * once the model and loaders are prepared and never cleared).
   */
  function ExitDecision(trainingStarted: bool, isMain: bool, answer: string): Decision
  {
    if trainingStarted && isMain then
      if Affirmative(answer) then SaveAndExit else Resume
    else ExitNow
  }

  /** The status passed to `sys.exit`, or None when the handler returns. */
  function ExitStatus(d: Decision): Option<int>
  {
    match d
    case SaveAndExit => Some(0)
    case ExitNow => Some(0)
    case Resume => None
  }

  /** The answers that confirm are exactly "y" and "yes" in any mix of letter case. */
  lemma AffirmativeMeaning(answer: string)
    ensures Affirmative(answer) <==>
      || (|answer| == 1 && answer[0] in "yY")
      || (|answer| == 3 && answer[0] in "yY" && answer[1] in "eE" && answer[2] in "sS")
  {
    if |answer| == 1 {
      assert Lower(answer) == "y" <==> LowerChar(answer[0]) == 'y';
    } else if |answer| == 3 {
      assert Lower(answer) == "yes" <==>
        LowerChar(answer[0]) == 'y' && LowerChar(answer[1]) == 'e' && LowerChar(answer[2]) == 's';
    } else {
      assert |Lower(answer)| == |answer|;
    }
  }

  /**
   * A checkpoint is saved only by the main process of a started run whose operator
   * confirms; that process resumes on any other answer; every other process exits
   * at once. Both exits report status 0.
   */
  lemma ExitDecisionMeaning(trainingStarted: bool, isMain: bool, answer: string)
    ensures var d := ExitDecision(trainingStarted, isMain, answer);
      && (d == SaveAndExit <==> trainingStarted && isMain && Affirmative(answer))
      && (d == Resume <==> trainingStarted && isMain && !Affirmative(answer))
      && (d == ExitNow <==> !(trainingStarted && isMain))
      && (ExitStatus(d) == None <==> d == Resume)
      && (ExitStatus(d).Some? ==> ExitStatus(d).value == 0)
  {
  }

  /** "Y", "yes" and "YeS" save; "n", "" and "yess" resume. */
  lemma ExitAnswers()
    ensures ExitDecision(true, true, "Y") == SaveAndExit
    ensures ExitDecision(true, true, "YeS") == SaveAndExit
    ensures ExitDecision(true, true, "n") == Resume
    ensures ExitDecision(true, true, "") == Resume
    ensures ExitDecision(true, true, "yess") == Resume
    ensures ExitDecision(true, false, "y") == ExitNow
  {
    AffirmativeMeaning("Y");
    AffirmativeMeaning("YeS");
    AffirmativeMeaning("n");
    AffirmativeMeaning("");
    AffirmativeMeaning("yess");
  }
}
