/**
 * The in-session flashcard deck. Answering the card on top either removes it
 * (a correct answer) or puts it back at some position among the remaining
 * cards (a wrong answer), so that it comes up again later.
 */
module Deck {

  datatype DeckStep<T> = DeckStep(newDeck: seq<T>, finished: bool)

  /**
   * `applyAnswerToDeck(prevDeck, correct)`. The position a wrongly answered
   * card goes back to is drawn at random from 0 to the number of remaining
   * cards; here the caller supplies it as `insertAt`.
   */
  function ApplyAnswerToDeck<T>(prevDeck: seq<T>, correct: bool, insertAt: nat): (r: DeckStep<T>)
    requires !correct && prevDeck != [] ==> insertAt <= |prevDeck| - 1
    ensures prevDeck == [] ==> r == DeckStep([], true)
    ensures prevDeck != [] && correct ==> r.newDeck == prevDeck[1..] && (r.finished <==> |prevDeck| == 1)
    ensures prevDeck != [] && !correct ==>
      && !r.finished
      && |r.newDeck| == |prevDeck|
      && multiset(r.newDeck) == multiset(prevDeck)
      && r.newDeck[insertAt] == prevDeck[0]
      && r.newDeck[..insertAt] + r.newDeck[insertAt + 1..] == prevDeck[1..]
  {
    if prevDeck == [] then DeckStep([], true)
    else
      var current, rest := prevDeck[0], prevDeck[1..];
      if !correct then
        var newDeck := rest[..insertAt] + [current] + rest[insertAt..];
        assert newDeck[..insertAt] == rest[..insertAt];
        assert newDeck[insertAt + 1..] == rest[insertAt..];
        assert rest[..insertAt] + rest[insertAt..] == rest;
        assert prevDeck == [current] + rest;
        DeckStep(newDeck, false)
      else
        DeckStep(rest, |rest| == 0)
  }

  /** A wrong answer never loses or adds a card: repeating it keeps the deck's contents. */
  lemma {:induction false} WrongAnswersKeepCards<T>(deck: seq<T>, positions: seq<nat>)
    requires deck != []
    requires forall k :: 0 <= k < |positions| ==> positions[k] <= |deck| - 1
    decreases |positions|
    ensures |Requeue(deck, positions)| == |deck|
    ensures multiset(Requeue(deck, positions)) == multiset(deck)
  {
    if positions != [] {
      var next := ApplyAnswerToDeck(deck, false, positions[0]).newDeck;
      WrongAnswersKeepCards(next, positions[1..]);
    }
  }

  /** The deck after a run of wrong answers, the k-th put back at `positions[k]`. */
  function Requeue<T>(deck: seq<T>, positions: seq<nat>): seq<T>
    requires deck != []
    requires forall k :: 0 <= k < |positions| ==> positions[k] <= |deck| - 1
    decreases |positions|
  {
    if positions == [] then deck
    else
      var next := ApplyAnswerToDeck(deck, false, positions[0]).newDeck;
      Requeue(next, positions[1..])
  }

  /** Answering every card correctly, one after another, empties the deck and says so on the last card. */
  lemma {:induction false} CorrectAnswersFinish<T>(deck: seq<T>)
    requires deck != []
    ensures FinishCorrect(deck) == DeckStep([], true)
  {
    if |deck| > 1 { CorrectAnswersFinish(deck[1..]); }
  }

  /** The last step of answering the whole deck correctly, top card first. */
  function FinishCorrect<T>(deck: seq<T>): DeckStep<T>
    requires deck != []
    decreases |deck|
  {
    var step := ApplyAnswerToDeck(deck, true, 0);
    if step.finished then step else FinishCorrect(step.newDeck)
  }
}
