/**
 * The guard the quiz screen consults before navigation leaves it.
 */
module NavigationUtils {
  import opened QuizUtils

  /**
   * `shouldPromptLeave(index, score, asvabActive, isFocused, hasSubmitted)`.
   * The screen must be focused and the quiz in progress. `hasSubmitted` is
   * forwarded to `isQuizInProgress`, which takes three parameters and so
   * ignores it; the flag therefore never changes the answer.
   */
  function ShouldPromptLeave(index: int, score: int, asvabActive: bool, isFocused: bool, hasSubmitted: bool): (r: bool)
    ensures r ==> isFocused
    ensures !isFocused ==> !r
    ensures isFocused ==> r == IsQuizInProgress(index, score, asvabActive)
  {
    isFocused && IsQuizInProgress(index, score, asvabActive)
  }

  /** The `hasSubmitted` flag (defaulting to false) has no effect on the result. */
  lemma HasSubmittedIgnored(index: int, score: int, asvabActive: bool, isFocused: bool)
    ensures ShouldPromptLeave(index, score, asvabActive, isFocused, true)
         == ShouldPromptLeave(index, score, asvabActive, isFocused, false)
  {
  }

  /**
   * Having submitted an answer on the first question, with no score and no
   * ASVAB timer, does not make the focused screen prompt.
   */
  lemma SubmittedAloneDoesNotPrompt()
    ensures !ShouldPromptLeave(0, 0, false, true, true)
  {
  }

  /** A running ASVAB test on a focused screen always prompts. */
  lemma AsvabActivePrompts(index: int, score: int, hasSubmitted: bool)
    ensures ShouldPromptLeave(index, score, true, true, hasSubmitted)
  {
  }
}
