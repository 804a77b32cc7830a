# FormulaSmart core in Dafny

FormulaSmart is a study app for the maths parts of the ASVAB test: flashcards,
quizzes and a timed ASVAB practice test. This project models the logic behind
those screens and proves properties of it. Each source file gets one Dafny
module:

- `adaptive.dfy` (`AdaptiveAsvab`): the adaptive section selector. It serves
  questions from per-tier pools. It can fast-track to a higher tier after two
  correct answers in a row, and it moves the current tier up or down once a
  tier is used up. There is a pure layer (`Section`, `Next`, `Submit`) and a
  class `AdaptiveSection` whose fields are updated in place. Each method is
  proved equal to the function of the pure layer.
- `choice_generator.dfy` (`ChoiceGenerator`): building the four-choice set of
  a quiz question.
  - Tagged distractors are made, deduplicated against each other and the
    correct answer, topped up to three, and completed with the kind the
    tier requires.
  - The set is shuffled in place with Fisher–Yates.
  - The positions are labelled A–D.
- `deck.dfy` (`Deck`): putting a flashcard back into the deck after an answer.
- `session_stats.dfy` (`SessionStats`): the summary at the end of a session.
  It has the score, the card total and per-type counts.
- `asvab.dfy` (`Asvab`): the AFQT-style score estimate, and the 45-question
  ASVAB pool with its quota of word problems.
- `cards.dfy` (`Cards`): the `Card` union type, the shape cards of the
  catalogue and the subject filter.
- `shape_detect.dfy` (`ShapeDetect`) and `shape_labels.dfy` (`ShapeLabels`):
  which shape a card is about, and which dimension letters its diagram shows.
- `word_hints.dfy` (`WordHints`): keyword hints for word problems.
- `quiz_utils.dfy` (`QuizUtils`) and `navigation_utils.dfy`
  (`NavigationUtils`): whether a quiz is in progress, and whether leaving the
  screen asks for confirmation.
- `text.dfy` (`Text`): shared string helpers:
  - ASCII lower-casing;
  - substring and whole-word search;
  - joining;
  - subsequences;
  - `Option`.

Every random choice of the source is a parameter, constrained by a precondition:

- the shuffled tiers given to the `AdaptiveSection` constructor, which must be
  permutations of the source tiers;
- a shuffle function for the pool builder, which must return a permutation;
- the insert position of a wrongly answered flashcard;
- a `Draws` record for the choice generator: the texts of the numeric
  distractors, the texts of the successive top-up draws, the replacement text
  and the Fisher–Yates indices.

## Model

| member | source | states |
|---|---|---|
| AdaptiveAsvab.FirstNonEmpty | src/utils/adaptiveAsvab.ts:95-96 | the first non-empty tier at or after `from`, and -1 exactly when every tier from there on is empty |
| AdaptiveAsvab.LastNonEmptyBelow | src/utils/adaptiveAsvab.ts:100-101 | the last non-empty tier below `from`, and -1 exactly when every tier below is empty |
| AdaptiveAsvab.FindNext | src/utils/adaptiveAsvab.ts:92-102 | the search returns -1 or a non-empty tier; when it also searches backwards, it returns -1 iff every pool is empty |
| AdaptiveAsvab.Evaluate | src/utils/adaptiveAsvab.ts:69-84 | the promote/stay/demote step keeps the tier index in range and the state well formed |
| AdaptiveAsvab.Submit | src/utils/adaptiveAsvab.ts:53-86 | an answer never changes the pools or the asked counts, never clears hint mode, and with a tier outside [0, n) changes nothing |
| AdaptiveAsvab.AllEmptyIffNoTier | src/utils/adaptiveAsvab.ts:88-90 | `allEmpty` holds iff searching from tier 0 finds no non-empty tier |
| AdaptiveAsvab.Next | src/utils/adaptiveAsvab.ts:22-51 | the state stays well-formed; no question comes with tier -1 and the state untouched; a question is the last one of a non-empty tier, and that tier's pool loses it |
| AdaptiveAsvab.NextNoneIffAllEmpty | src/utils/adaptiveAsvab.ts:24-50 | no question is returned iff every pool is empty; a missing question comes with tier -1 and leaves the state as it was |
| AdaptiveAsvab.NextPops | src/utils/adaptiveAsvab.ts:28-48 | a question served is the last one of the reported tier's pool; that pool loses exactly it and only that tier's asked count grows by one; tier index, correct counts, fail streaks and hint mode are unchanged; asked + remaining stays equal to each tier's initial size |
| AdaptiveAsvab.NextFastTrack | src/utils/adaptiveAsvab.ts:27-35 | after two or more correct answers in a row, with a non-empty tier above the current one, the question comes from the lowest such tier and the streak becomes 0 |
| AdaptiveAsvab.NextWithoutFastTrack | src/utils/adaptiveAsvab.ts:39-100 | without fast-track the question comes from the current tier when it is non-empty; otherwise from the nearest non-empty tier above it, or else the nearest one below it; the streak is kept |
| AdaptiveAsvab.NextNoHigherKeepsStreak | src/utils/adaptiveAsvab.ts:27-29 | when no higher tier is non-empty, the streak of correct answers is left unchanged |
| AdaptiveAsvab.EvaluatesIffExhausted | src/utils/adaptiveAsvab.ts:67-107 | the end-of-tier evaluation runs iff the tier's pool is empty and at least one of its questions was asked (with 5 in place of asked + remaining when that sum is 0) |
| AdaptiveAsvab.SubmitCorrect | src/utils/adaptiveAsvab.ts:55-57 | a correct answer adds one to that tier's correct count and to the streak |
| AdaptiveAsvab.SubmitIncorrect | src/utils/adaptiveAsvab.ts:58-64 | a wrong answer resets the streak, keeps the correct counts, and turns hint mode on when the tier has 3 or more asked and at most 1 correct |
| AdaptiveAsvab.SubmitBeforeExhausted | src/utils/adaptiveAsvab.ts:58-68 | while the tier's asked count is below its original size, an answer moves neither the tier index nor any fail streak, and hint mode is on afterwards exactly when it was on before or the answer is wrong with 3 or more asked and at most 1 correct |
| AdaptiveAsvab.SubmitStepsByOne | src/utils/adaptiveAsvab.ts:72-83 | one answer moves the tier index by at most one step |
| AdaptiveAsvab.SubmitPromotes | src/utils/adaptiveAsvab.ts:71-73 | finishing a tier with 4 or more correct moves the current tier index up by one, capped at the last tier, zeroes the new tier's fail streak, leaves every other fail streak alone and does not change hint mode |
| AdaptiveAsvab.SubmitStays | src/utils/adaptiveAsvab.ts:74-75 | finishing a tier with exactly 3 correct keeps the tier index, the fail streaks and hint mode |
| AdaptiveAsvab.SubmitDemotes | src/utils/adaptiveAsvab.ts:76-84 | finishing a tier with fewer than 3 correct adds one to the current tier index's fail streak (not the finished tier's), moves the index down by one, floored at 0; hint mode is on afterwards exactly when it was on before, or this wrong answer came with 3 or more asked and at most 1 correct, or the new streak is 2 or more |
| AdaptiveAsvab.AdaptiveSection.constructor | src/utils/adaptiveAsvab.ts:12-20 | the pools are the given permutations of the source tiers; the tier index is startTier clamped to [0, n-1]; all counters start at zero and hint mode off; the invariant holds |
| AdaptiveAsvab.AdaptiveSection.NextQuestion | src/utils/adaptiveAsvab.ts:22-51 | the question, tier and new state are those of `Next` on the old state, and the invariant (lengths, tier index range, conservation) is kept, and the initial tier sizes do not change |
| AdaptiveAsvab.AdaptiveSection.Pop | src/utils/adaptiveAsvab.ts:30-47 | `pop()` plus the asked-count increment equals `Take` on the old state, and the initial tier sizes do not change |
| AdaptiveAsvab.AdaptiveSection.FindNextNonEmptyTier | src/utils/adaptiveAsvab.ts:92-102 | the two indexed loops compute `FindNext` |
| AdaptiveAsvab.AdaptiveSection.SubmitAnswer | src/utils/adaptiveAsvab.ts:53-86 | the new state is `Submit` of the old one, the invariant is kept, and the initial tier sizes do not change |
| AdaptiveAsvab.AdaptiveSection.EvaluateTier | src/utils/adaptiveAsvab.ts:66-85 | the evaluation runs exactly when the asked count reaches `originalTierSize`, and then equals `Evaluate`; the initial tier sizes do not change |
| ChoiceGenerator.Strategy | src/utils/choiceGenerator.ts:31-69 | each strategy tags its kind; for an answer with no ASCII digit, its text is the answer plus " (calc error)", " (misapplied concept)", " (partial)" or " (rounded)" |
| ChoiceGenerator.Candidates | src/utils/choiceGenerator.ts:72-76 | three candidates: arithmetic, conceptual, then partial when tier ≥ 3 and rounding otherwise |
| ChoiceGenerator.Dedupe | src/utils/choiceGenerator.ts:79-86 | the kept distractors have pairwise distinct texts, none equal to the answer, and are drawn from the input; every input text is among the answer and the kept texts |
| ChoiceGenerator.TopUp | src/utils/choiceGenerator.ts:89-92 | a successful top-up keeps the kept distractors as a prefix, reaches exactly 3, adds only arithmetic distractors and keeps texts fresh |
| ChoiceGenerator.EnsureRequired | src/utils/choiceGenerator.ts:94-107 | the list is unchanged when it has the required kind or the replacement text was seen; otherwise the last entry becomes the replacement, so the kind is present; the length stays the same and texts stay fresh in both cases |
| ChoiceGenerator.Pool | src/utils/choiceGenerator.ts:110 | the pool is the correct entry followed by one entry per distractor with its text and kind |
| ChoiceGenerator.Shuffled | src/utils/choiceGenerator.ts:111-114 | the swaps made so far give a permutation of the pool |
| ChoiceGenerator.Texts | src/utils/choiceGenerator.ts:116 | `choices[i]` is the text of pool entry i |
| ChoiceGenerator.FindCorrect | src/utils/choiceGenerator.ts:117 | the first index holding the correct entry, and -1 iff there is none |
| ChoiceGenerator.Logic | src/utils/choiceGenerator.ts:118-121 | label i is a key iff position i holds a distractor, its value is that distractor's kind name, and there are no other keys |
| ChoiceGenerator.Final | src/utils/choiceGenerator.ts:72-107 | a completed distractor list has exactly 3 entries, with distinct texts different from the answer |
| ChoiceGenerator.Generate | src/utils/choiceGenerator.ts:71-124 | choices are produced exactly when the final three distractors are, and there are four of them; the rest is stated by `GenerateValid` |
| ChoiceGenerator.GenerateChoices | src/utils/choiceGenerator.ts:71-124 | the method computes `Generate` |
| ChoiceGenerator.FinalDistractors | src/utils/choiceGenerator.ts:72-107 | candidate pushes, dedupe loop, top-up loop and pop/push replacement compute `Final` |
| ChoiceGenerator.AssembleChoices | src/utils/choiceGenerator.ts:110-123 | building the pool array, shuffling it in place, then mapping texts, finding the correct index and labelling compute `Assemble` |
| ChoiceGenerator.DedupeLoop | src/utils/choiceGenerator.ts:79-86 | the loop computes `Dedupe`, and `seen` is the answer plus the kept texts |
| ChoiceGenerator.TopUpLoop | src/utils/choiceGenerator.ts:89-92 | the while loop computes `TopUp`, and `seen` stays the answer plus the kept texts |
| ChoiceGenerator.ShuffleInPlace | src/utils/choiceGenerator.ts:111-114 | the in-place swap loop leaves the array equal to `Shuffled` of its old contents |
| ChoiceGenerator.LabelPositions | src/utils/choiceGenerator.ts:118-121 | the labelling loop computes `Logic` |
| ChoiceGenerator.ShuffledDistinctTexts | src/utils/choiceGenerator.ts:111-114 | Fisher–Yates swaps keep the pool texts pairwise distinct |
| ChoiceGenerator.PoolDistinct | src/utils/choiceGenerator.ts:79-110 | fresh distractors give a pool with pairwise distinct texts |
| ChoiceGenerator.GenerateValid | src/utils/choiceGenerator.ts:71-124 | whenever choices are produced: there are 4, pairwise distinct, and a permutation of the answer plus the 3 distractor texts; `choices[correctIndex]` is the answer and nowhere else; the logic keys are exactly the labels of the other positions, each naming the kind of the distractor shown there |
| ChoiceGenerator.PoolCorrect | src/utils/choiceGenerator.ts:117 | in a shuffled pool, `findIndex` finds the answer's position and every other position is a distractor |
| ChoiceGenerator.PoolLabels | src/utils/choiceGenerator.ts:118-121 | in a shuffled pool, the logic keys are exactly the labels other than the correct one, each naming the kind shown there |
| ChoiceGenerator.ChoicesMultiset | src/utils/choiceGenerator.ts:110-116 | the choice texts are distinct and a permutation of the answer plus the distractor texts |
| ChoiceGenerator.PoolTextsInChoices | src/utils/choiceGenerator.ts:110-116 | every choice text is the answer or a distractor text |
| ChoiceGenerator.ChoicesInPoolTexts | src/utils/choiceGenerator.ts:110-116 | the answer and every distractor text are among the choices |
| ChoiceGenerator.FreshDistinct | src/utils/choiceGenerator.ts:80-86 | fresh distractors and the answer have pairwise distinct texts |
| ChoiceGenerator.DedupeFresh | src/utils/choiceGenerator.ts:79-86 | deduplication leaves already fresh distractors unchanged |
| ChoiceGenerator.SuffixesDiffer | src/utils/choiceGenerator.ts:33-65 | a suffixed answer differs from the answer, and different kinds give different texts |
| ChoiceGenerator.NonNumericFinal | src/utils/choiceGenerator.ts:72-107 | for an answer without a digit, the three candidates survive unchanged, with the three suffixed texts |
| ChoiceGenerator.NonNumericChoices | src/utils/choiceGenerator.ts:71-124 | for an answer without a digit, choices are produced and are, in some order, the answer and its arithmetic, conceptual and tier-required variants; one label carries the required kind |
| Deck.ApplyAnswerToDeck | src/utils/deckUtils.ts:2-12 | an empty deck gives ([], finished). A right answer drops the head and is finished iff one card was left. A wrong answer is not finished and puts the head at `insertAt` while the rest keeps its order, so the deck is a permutation of the old one |
| Deck.WrongAnswersKeepCards | src/utils/deckUtils.ts:5-8 | any run of wrong answers keeps the deck's size and its cards |
| Deck.CorrectAnswersFinish | src/utils/deckUtils.ts:10-11 | answering every card right ends with an empty, finished deck |
| SessionStats.ComputeSessionSummary | src/utils/sessionStats.ts:5-27 | total is the number of cards; score is the number of distinct result ids answered right at least once; the per-type keys are exactly the types present; each type's counts are (cards of that type answered right, cards of that type) |
| SessionStats.AnswerMap | src/utils/sessionStats.ts:7-11 | the map's keys are the result ids, and the ids marked correct are those with a correct result |
| SessionStats.CountByType | src/utils/sessionStats.ts:17-24 | the keys are the types of the cards, and each value counts that type's correct cards and all its cards |
| SessionStats.TagsMembership | src/utils/sessionStats.ts:19-21 | a type is a key iff some card has it |
| SessionStats.CountStep | src/utils/sessionStats.ts:21-23 | one card adds one to its type's total, and one to its correct count iff its id was answered right |
| SessionStats.ZeroCounts | src/utils/sessionStats.ts:21-23 | a type no card has counts zero |
| SessionStats.CorrectNotCancelled | src/utils/sessionStats.ts:9-10 | later results never remove an id from the correct set |
| SessionStats.CorrectAtMostTotal | src/utils/sessionStats.ts:22-23 | a type's correct count never exceeds its total |
| SessionStats.TotalsSum | src/utils/sessionStats.ts:19-22 | the definition, shape and word totals add up to the number of cards |
| SessionStats.NoResultsNoCorrect | src/utils/sessionStats.ts:14-23 | no results give score 0 and every correct count 0 |
| Asvab.ComputeAfqtEstimate | src/utils/asvab.ts:39-44 | 0 for total ≤ 0. Otherwise the result lies in [0, 99]: strictly inside, it is 100·correct/total rounded half up; 99 means at least 98.5%; 0 means below 0.5% |
| Asvab.AfqtExamples | src/utils/asvab.ts:39-44 | 0 of 45 gives 0, 45 of 45 gives 99, 22 of 45 gives 49 |
| Asvab.AfqtPerfect | src/utils/asvab.ts:43 | a perfect score on at least one question gives 99 |
| Asvab.Filter | src/utils/asvab.ts:10-11 | `filter` keeps exactly the cards satisfying the predicate, and keeps ids unique |
| Asvab.JsTake | src/utils/asvab.ts:22-35 | `slice(0, n)` is a prefix of length min(n, len), or len + n for a negative n |
| Asvab.Exclude | src/utils/asvab.ts:26-31 | excluding already picked ids keeps exactly the cards whose id was not picked |
| Asvab.FillFrom | src/utils/asvab.ts:25-27 | the cards pushed all come from the given pool; for a non-negative `remainingNeeded` there are exactly min(remainingNeeded, pool cards not yet picked) of them; the selection stays within the deck with unique ids kept |
| Asvab.PadTo | src/utils/asvab.ts:29-33 | padding happens only when short, never exceeds `total`, and with unique ids reaches min(total, deck size) |
| Asvab.BuildAsvabPool | src/utils/asvab.ts:6-36 | the pool has at most `total` cards, all from the deck, with unique ids kept. Given unique ids and a quota of min(minWordProblems, #word problems) that fits in `total`, it has min(total, deck size) cards, at least the quota of them word problems. When the Arithmetic Reasoning / Math Knowledge subjects have `total` cards or more, every card returned has one of those subjects, so other subjects only ever come in as padding |
| Asvab.ArMkFill | src/utils/asvab.ts:21-33 | with unique ids and enough Arithmetic Reasoning / Math Knowledge cards, the word problems plus the fill reach `total`, so no padding runs and every card selected has one of those subjects |
| Asvab.SizeAndQuota | src/utils/asvab.ts:21-35 | the selection before the last reordering has min(total, deck size) cards and keeps the word problems picked first |
| Cards.FilterSubjects | src/data/cards.ts:177 | the result is the cards whose subject is in the list, in catalogue order, each with as many copies as the catalogue holds; an empty list gives nothing |
| Cards.CardsForSubjects | src/data/cards.ts:175-178 | 'All' gives the catalogue unchanged; a list gives exactly the cards of the listed subjects, with their multiplicities, as a subsequence of the catalogue |
| ShapeDetect.FirstMatch | src/utils/shapeDetect.ts:21-25 | the first table entry occurring in the text, or none iff no entry occurs |
| ShapeDetect.DetectShapeFromCard | src/utils/shapeDetect.ts:5-26 | a shape card gives its lower-cased shape, or none if that is empty. Another card gives none for an overview prompt or without context; otherwise it gives the first `SHAPES` entry found in the lower-cased prompt + " " + answer, or none iff no entry occurs |
| ShapeDetect.DetectedIsTableShape | src/utils/shapeDetect.ts:3-23 | for a card other than a shape card, a detected shape is an entry of `SHAPES` |
| ShapeDetect.RightTriangleFirst | src/utils/shapeDetect.ts:3-23 | a text mentioning "right triangle" is detected as a right triangle, not a triangle |
| ShapeDetect.CommonPromptIgnored | src/utils/shapeDetect.ts:13 | a prompt opening with the word "Common" is an overview, and nothing is detected |
| ShapeDetect.OverviewNotDetected | src/utils/shapeDetect.ts:13 | the catalogue's shapes-overview card detects no shape, whatever its answer says |
| ShapeDetect.ShapeCardsDetected | src/utils/shapeDetect.ts:6 | every catalogue shape card is detected as its own shape name, lower-cased |
| ShapeLabels.CircleLabels | src/utils/shapeLabels.ts:13-19 | a circle's labels are never empty; 'r' appears iff radius words occur or no diameter words do, and 'd' appears iff diameter words occur |
| ShapeLabels.TableRow | src/utils/shapeLabels.ts:13-75 | every lower-cased name gets one block index in -1..14, -1 meaning no block; which block each name gets is stated by `RowTests` |
| ShapeLabels.RowTests | src/utils/shapeLabels.ts:13-70 | each block matches exactly the shape names its test lists |
| ShapeLabels.ShapeLabelsOf | src/utils/shapeLabels.ts:4-77 | a card with no detected shape gets no labels, and no card gets more than three |
| ShapeLabels.GetShapeLabels | src/utils/shapeLabels.ts:4-77 | the pushes of the fifteen `if` blocks give the labels of the one block the detected shape selects; no shape gives [] |
| ShapeLabels.FirstBlocks | src/utils/shapeLabels.ts:13-35 | the circle through right-triangle blocks append the labels of the matching block, if any |
| ShapeLabels.MiddleBlocks | src/utils/shapeLabels.ts:36-54 | the parallelogram through hexagon blocks append the labels of the matching block, if any |
| ShapeLabels.LastBlocks | src/utils/shapeLabels.ts:55-75 | the ellipse through rectangular-solid blocks append the labels of the matching block, if any |
| ShapeLabels.RowsSplit | src/utils/shapeLabels.ts:12-76 | the three groups together give exactly the one block's labels |
| ShapeLabels.CircleNeverEmpty | src/utils/shapeLabels.ts:8-19 | a detected circle always gets labels: 'r' iff radius words or no diameter words, 'd' iff diameter words |
| ShapeLabels.RectangularSolid | src/utils/shapeLabels.ts:70-75 | any shape name containing "rectangular" gets [l, w, h] |
| ShapeLabels.UnlistedShape | src/utils/shapeLabels.ts:13-76 | a shape name no block lists gets [] |
| ShapeLabels.OnlyCircleReadsText | src/utils/shapeLabels.ts:8-19 | the text's radius and diameter words matter only for a circle |
| ShapeLabels.ShapeCardRow | src/utils/shapeLabels.ts:5-75 | a shape card's labels are those of the block of its lower-cased shape |
| ShapeLabels.ShapeCardLabels | src/utils/shapeLabels.ts:13-48 | the catalogue's eight shape cards get: circle [r], rectangle [l, w], square [s], triangle [b, h], right triangle [a, b, c], parallelogram [b, h], trapezoid [b₁, b₂, h], rhombus [d₁, d₂] |
| ShapeLabels.CircleCardLabels | src/utils/shapeLabels.ts:13-19 | the circle card mentions neither radius nor diameter and gets [r] |
| ShapeLabels.NoMeasureLetters | src/utils/shapeLabels.ts:8-9 | a text with neither 'u' nor 'd' shows neither radius nor diameter |
| WordHints.MatchingEntries | src/utils/wordHints.ts:1-18 | the matched entries are exactly the table entries whose keyword is a substring of the text, in table order |
| WordHints.HintFromMatches | src/utils/wordHints.ts:20-26 | no match gives the fixed fallback; otherwise the text is exactly the heading followed by the lines of the matches, in order, joined by newlines |
| WordHints.Lines | src/utils/wordHints.ts:24 | one line per match, in order, the k-th being `"key" → Op` of the k-th match |
| WordHints.HintLineAt | src/utils/wordHints.ts:24-26 | the k-th line occurs in the hint at its start position, and the first line starts right after the heading |
| WordHints.HintLineNext | src/utils/wordHints.ts:24-26 | line k + 1 starts one character after the end of line k |
| WordHints.HintNewline | src/utils/wordHints.ts:24-26 | the character right after line k, for every line but the last, is a newline |
| WordHints.HintLastLine | src/utils/wordHints.ts:24-26 | the last line ends where the hint ends |
| Text.JoinLength | src/utils/wordHints.ts:26 | a join of n parts is as long as the parts together plus n - 1 separators |
| Text.JoinOffsetStep | src/utils/wordHints.ts:26 | part k + 1 starts a part's length plus a separator's length after part k |
| Text.JoinSeparator | src/utils/wordHints.ts:26 | a separator follows every part but the last |
| Text.JoinLastPart | src/utils/wordHints.ts:26 | the last part ends where the join ends |
| WordHints.HintForWordProblem | src/utils/wordHints.ts:12-27 | an empty prompt gives the generic message; otherwise the hint is built from the table entries found in the lower-cased prompt |
| WordHints.CollectMatches | src/utils/wordHints.ts:15-18 | the `forEach` loop collects exactly the matching entries, in table order |
| WordHints.PerInsidePercent | src/utils/wordHints.ts:9-17 | a prompt containing "percent" also matches "per" → Divide, since matching is by substring |
| WordHints.MatchAppend | src/utils/wordHints.ts:16-18 | matching over two tables in a row gives the two match lists in a row |
| WordHints.NoneMatch | src/utils/wordHints.ts:16-18 | a table none of whose keywords occurs matches nothing |
| WordHints.OnlyOf | src/utils/wordHints.ts:1-18 | a text containing "of" and no other keyword matches only "of" → Multiply |
| WordHints.PercentOfPrompt | src/utils/wordHints.ts:12-27 | "What is 30% of 20?" matches only "of" → Multiply, and the hint does not mention percentages |
| WordHints.FactorsPrompt | src/utils/wordHints.ts:12-27 | "What are the factors of 12?" matches only "of" → Multiply |
| QuizUtils.IsQuizInProgress | src/utils/quizUtils.ts:1-3 | true iff index > 0, score > 0 or the ASVAB test is active |
| QuizUtils.FreshQuizNotInProgress | src/utils/quizUtils.ts:2 | (0, 0, inactive) is not in progress |
| QuizUtils.NonPositiveCountersIgnored | src/utils/quizUtils.ts:2 | with no positive counters the result is exactly the ASVAB flag |
| NavigationUtils.ShouldPromptLeave | src/utils/navigationUtils.ts:3-5 | false when unfocused; when focused, equal to `isQuizInProgress` of index, score and ASVAB flag |
| NavigationUtils.HasSubmittedIgnored | src/utils/navigationUtils.ts:3-4 | `hasSubmitted` does not change the result, because `isQuizInProgress` takes only three parameters |
| NavigationUtils.SubmittedAloneDoesNotPrompt | src/utils/navigationUtils.ts:4 | a focused screen with nothing answered does not prompt, even after a submit |
| NavigationUtils.AsvabActivePrompts | src/utils/navigationUtils.ts:4 | a focused screen with an active ASVAB test always prompts |

## Left out

- Floating point. `parseNumeric` and `fmt`, and the magnitude, offset and
  factor arithmetic of the four strategies, work on JavaScript numbers. As
  a result, a numeric answer's distractor text is a supplied value
  (`Draws`). `parseNumeric` is taken to find a number exactly when the answer
  holds an ASCII digit. This ignores the corner where the captured digits are
  not a finite number.
- Randomness. `Math.random`, and the random-comparator shuffles in
  `adaptiveAsvab.ts`, `asvab.ts` and the quiz screen, become caller-supplied
  values: permutations, indices, texts. Whether the results are uniform is
  not modelled, and neither is the position-fairness of Fisher–Yates.
- ChoiceGenerator.TopUp: at src/utils/choiceGenerator.ts:89-92 the top-up loop
  draws until an unseen text turns up, which may be never. The model consumes
  a finite supplied sequence of drawn texts and returns `None` if it runs out
  first.
- ChoiceGenerator.Logic: `['A','B','C','D'][i]` for a pool longer than four
  would be `undefined`. The model requires at most four entries, which always
  holds because the distractor list has length three.
- Asvab.ComputeAfqtEstimate: the percentage is computed exactly, not in floating
  point, so the ties of float rounding are not modelled.
- Asvab.BuildAsvabPool: the word-problem quota is stated as "at least",
  because filling from the Arithmetic Reasoning / Math Knowledge pool may add
  more word problems. The default arguments of `buildAsvabPool` (45 and 10)
  are ordinary parameters here.
- The `?? 'definition'` fallback at src/utils/sessionStats.ts:20. The `Card`
  union type always has a type, so the fallback cannot fire and the model
  has no such case.
- Unicode. `toLowerCase` is modelled for ASCII letters only. The shape-label
  text lower-cases prompt + " " + answer as a whole; the model lower-cases
  each part, which gives the same text.
- ShapeLabels.GetShapeLabels: the fifteen `if` blocks are grouped into three
  methods of five blocks each (FirstBlocks, MiddleBlocks, LastBlocks). They
  push in the same order.
  - `showVolume` (src/utils/shapeLabels.ts:10) is computed but never used, so it is left out.
  - The regular-expression tests for radius and diameter are modelled as substring search.
- `extractShapeNumbers` (src/utils/shapeLabels.ts:82-175) and
  src/utils/formulaExplain.ts are not part of this model. Both are chains of
  JavaScript regular expressions with lazy quantifiers and replacement
  callbacks.
- The catalogue in src/data/cards.ts. Only its eight shape cards and the
  shapes-overview card's prompt are reproduced. The subject filter works on
  any catalogue given to it.
- AdaptiveAsvab.AdaptiveSection.constructor: `startTier` is an integer. A
  JavaScript caller could pass a fraction, which the model does not cover.
- Screens, components, navigation, storage, alerts, timers, the Node scripts,
  src/utils/device.ts and src/utils/safeDispatch.ts: these are UI and I/O,
  and are not part of this model.
- Some test files expect behaviour the code does not have: a `hasSubmitted`
  flag that counts, word hints beyond the keyword table, subjects and
  functions that do not exist. The model follows the code.
  `NavigationUtils.HasSubmittedIgnored` and `WordHints.PercentOfPrompt` state
  what the code actually does.
