/** The accept/reject rule VehicleRecognition.performRecognition applies to
    the top prediction, and what it does after an accepted one. */
module Decision {
  import opened Ranking

  /** The message shown for a recognition; the three matches carry the label. */
  datatype Outcome =
    | NothingFound                               // nothing_found
    | ProbabilityMatch(name: string, percent: real) // output_format: label, score x 100
    | SvmMatch(name: string)                     // output_format_svm_h: inside a class
    | SvmClose(name: string)                     // output_format_svm_l: close to a class

  /** The branch on the top score and the configured threshold. */
  function Decide(topOne: Prediction, threshValue: real): (r: Outcome)
    ensures r.NothingFound? <==> topOne.score <= threshValue
    ensures !r.NothingFound? ==> r.name == topOne.name
  {
    if topOne.score > threshValue then
      if threshValue > 0.0 then ProbabilityMatch(topOne.name, topOne.score * 100.0)
      else if topOne.score > 0.0 then SvmMatch(topOne.name)
      else SvmClose(topOne.name)
    else NothingFound
  }

  /** How the threshold is read: a positive one is a probability bound, any
      other one a bound on the SVM margin. */
  datatype Mode = Probability | Margin

  function ModeOf(threshValue: real): Mode
  {
    if threshValue > 0.0 then Probability else Margin
  }

  /** Each outcome in terms of the score, the threshold and its mode; the four
      conditions are exclusive and cover every input. */
  lemma DecideCases(topOne: Prediction, threshValue: real)
    ensures Decide(topOne, threshValue).NothingFound? <==> topOne.score <= threshValue
    ensures Decide(topOne, threshValue).ProbabilityMatch? <==>
      ModeOf(threshValue) == Probability && topOne.score > threshValue
    ensures Decide(topOne, threshValue).SvmMatch? <==>
      ModeOf(threshValue) == Margin && topOne.score > 0.0
    ensures Decide(topOne, threshValue).SvmClose? <==>
      ModeOf(threshValue) == Margin && threshValue < topOne.score <= 0.0
    ensures !Decide(topOne, threshValue).NothingFound? ==> Decide(topOne, threshValue).name == topOne.name
    ensures Decide(topOne, threshValue).ProbabilityMatch? ==>
      Decide(topOne, threshValue).percent == topOne.score * 100.0 > 0.0
  {
  }

  /** A threshold of exactly zero never yields "close to a class": a top
      score of zero or below is then "nothing found". */
  lemma ZeroThresholdNeverClose(topOne: Prediction)
    ensures !Decide(topOne, 0.0).SvmClose?
    ensures topOne.score <= 0.0 ==> Decide(topOne, 0.0) == NothingFound
  {
  }

  /** A higher top score is accepted whenever a lower one is. */
  lemma AcceptanceIsMonotone(p: Prediction, q: Prediction, threshValue: real)
    requires p.score <= q.score
    requires !Decide(p, threshValue).NothingFound?
    ensures !Decide(q, threshValue).NothingFound?
  {
  }

  lemma DecideExamples()
    ensures Decide(Prediction("A", 0.7), 0.9999) == NothingFound
    ensures Decide(Prediction("A", 0.95), 0.9) == ProbabilityMatch("A", 95.0)
    ensures Decide(Prediction("A", 0.3), 0.0) == SvmMatch("A")
    ensures Decide(Prediction("A", -0.1), 0.0) == NothingFound
    ensures Decide(Prediction("A", -0.1), -0.5) == SvmClose("A")
  {
  }

  /** What follows an outcome: the label is spoken and the frame saved only
      for a match, and then only when the settings allow it. */
  datatype Effects = Effects(speak: bool, save: bool)

  function AfterOutcome(outcome: Outcome, enableVoice: bool, speechReady: bool,
                        enableSave: bool, dirExists: bool): Effects
  {
    if outcome.NothingFound? then Effects(false, false)
    else Effects(enableVoice && speechReady, enableSave && dirExists)
  }
}
