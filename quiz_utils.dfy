/**
 * Whether a quiz counts as started: the screen asks for confirmation before
 * leaving only then.
 */
module QuizUtils {

  /**
   * `isQuizInProgress(index, score, asvabActive)`: a quiz is in progress once
   * the user has moved past the first question, has scored, or is running the
   * timed ASVAB test. A fresh quiz (index 0, score 0, no ASVAB) is not.
   */
  function IsQuizInProgress(index: int, score: int, asvabActive: bool): (r: bool)
    ensures asvabActive ==> r
    ensures index > 0 || score > 0 ==> r
    ensures r ==> index > 0 || score > 0 || asvabActive
  {
    index > 0 || score > 0 || asvabActive
  }

  /** A fresh quiz is not in progress. */
  lemma FreshQuizNotInProgress()
    ensures !IsQuizInProgress(0, 0, false)
  {
  }

  /** Negative counters are treated like zero ones: only positive values count as progress. */
  lemma NonPositiveCountersIgnored(index: int, score: int, asvabActive: bool)
    requires index <= 0 && score <= 0
    ensures IsQuizInProgress(index, score, asvabActive) == asvabActive
  {
  }
}
