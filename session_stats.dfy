/**
 * The end-of-session summary: how many distinct cards were answered
 * correctly at least once, how many cards the session had, and per card
 * type the number of cards and of correctly answered ones.
 */
module SessionStats {
  import opened Cards

  /** One answer given during the session. */
  datatype AnswerResult = AnswerResult(id: string, correct: bool)

  datatype TypeCount = TypeCount(correct: nat, total: nat)

  datatype Summary = Summary(score: nat, total: nat, countsByType: map<string, TypeCount>)

  /** The ids that have at least one correct answer among `results`. */
  function CorrectIds(results: seq<AnswerResult>): set<string>
  {
    set k | 0 <= k < |results| && results[k].correct :: results[k].id
  }

  /** The number of cards of `cards` whose type tag is `t`. */
  function CountType(cards: seq<Card>, t: string): nat
  {
    if cards == [] then 0
    else CountType(cards[..|cards| - 1], t) + (if cards[|cards| - 1].TypeTag() == t then 1 else 0)
  }

  /** The number of cards of `cards` whose type tag is `t` and whose id is in `ok`. */
  function CountCorrect(cards: seq<Card>, t: string, ok: set<string>): nat
  {
    if cards == [] then 0
    else
      var c := cards[|cards| - 1];
      CountCorrect(cards[..|cards| - 1], t, ok) + (if c.TypeTag() == t && c.id in ok then 1 else 0)
  }

  /** The ids a results map records as answered correctly at least once. */
  function CorrectIn(m: map<string, bool>): set<string>
  {
    set id | id in m && m[id]
  }

  /**
   * `computeSessionSummary(results, allCards)`. The score counts distinct
   * ids, including ids of results that are not in `allCards`; the
   * per-type counts use the deck as ground truth.
   */
  method ComputeSessionSummary(results: seq<AnswerResult>, allCards: seq<Card>) returns (s: Summary)
    ensures s.total == |allCards|
    ensures s.score == |CorrectIds(results)|
    ensures forall t :: t in s.countsByType <==> exists c :: c in allCards && c.TypeTag() == t
    ensures forall t :: t in s.countsByType ==>
      s.countsByType[t] == TypeCount(CountCorrect(allCards, t, CorrectIds(results)), CountType(allCards, t))
  {
    var m := AnswerMap(results);
    var total := |allCards|;
    var score := |CorrectIn(m)|;
    var countsByType := CountByType(allCards, m);
    s := Summary(score, total, countsByType);
  }

  /** The `results.forEach` loop: each result id maps to whether some answer to it was correct. */
  method AnswerMap(results: seq<AnswerResult>) returns (m: map<string, bool>)
    ensures forall id :: id in m <==> exists k :: 0 <= k < |results| && results[k].id == id
    ensures CorrectIn(m) == CorrectIds(results)
  {
    m := map[];
    for i := 0 to |results|
      invariant forall id :: id in m <==> exists k :: 0 <= k < i && results[k].id == id
      invariant forall id :: id in m ==> (m[id] <==> id in CorrectIds(results[..i]))
    {
      var r := results[i];
      assert results[..i + 1] == results[..i] + [r];
      if r.id !in m {
        m := m[r.id := false];
      }
      if r.correct {
        m := m[r.id := true];
      }
    }
    assert results[..|results|] == results;
    forall id | id in CorrectIds(results) ensures id in m {
      var k :| 0 <= k < |results| && results[k].correct && results[k].id == id;
    }
  }

  /** The `allCards.forEach` loop: per type tag, the number of cards and of correctly answered ones. */
  method CountByType(allCards: seq<Card>, m: map<string, bool>) returns (countsByType: map<string, TypeCount>)
    ensures forall t :: t in countsByType <==> exists c :: c in allCards && c.TypeTag() == t
    ensures forall t :: t in countsByType ==>
      countsByType[t] == TypeCount(CountCorrect(allCards, t, CorrectIn(m)), CountType(allCards, t))
  {
    ghost var ok := CorrectIn(m);
    countsByType := map[];
    for i := 0 to |allCards|
      invariant countsByType.Keys == Tags(allCards[..i])
      invariant forall t :: t in countsByType ==>
        countsByType[t] == TypeCount(CountCorrect(allCards[..i], t, ok), CountType(allCards[..i], t))
    {
      ghost var before := countsByType;
      var c := allCards[i];
      var t := c.TypeTag();
      if t !in countsByType {
        countsByType := countsByType[t := TypeCount(0, 0)];
      }
      var tc := countsByType[t];
      tc := tc.(total := tc.total + 1);
      if c.id in m && m[c.id] {
        tc := tc.(correct := tc.correct + 1);
      }
      countsByType := countsByType[t := tc];
      assert (c.id in m && m[c.id]) == (c.id in ok);
      CountsGrow(allCards, i, ok, before, countsByType);
    }
    assert allCards[..|allCards|] == allCards;
    TagsMembership(allCards);
  }

  /** The type tags of the cards of `cards`. */
  function Tags(cards: seq<Card>): set<string>
  {
    if cards == [] then {} else Tags(cards[..|cards| - 1]) + {cards[|cards| - 1].TypeTag()}
  }

  lemma {:induction false} TagsMembership(cards: seq<Card>)
    ensures forall t :: t in Tags(cards) <==> exists c :: c in cards && c.TypeTag() == t
  {
    if cards != [] {
      var init := cards[..|cards| - 1];
      TagsMembership(init);
      assert cards == init + [cards[|cards| - 1]];
    }
  }

  /** One iteration of the counting loop keeps the counts those of the cards seen so far. */
  lemma CountsGrow(cards: seq<Card>, i: nat, ok: set<string>, before: map<string, TypeCount>, after: map<string, TypeCount>)
    requires i < |cards|
    requires before.Keys == Tags(cards[..i])
    requires forall t :: t in before ==>
      before[t] == TypeCount(CountCorrect(cards[..i], t, ok), CountType(cards[..i], t))
    requires var t := cards[i].TypeTag();
      var prev := if t in before then before[t] else TypeCount(0, 0);
      && after.Keys == before.Keys + {t}
      && after[t] == TypeCount(prev.correct + (if cards[i].id in ok then 1 else 0), prev.total + 1)
      && forall u :: u in before && u != t ==> after[u] == before[u]
    ensures after.Keys == Tags(cards[..i + 1])
    ensures forall t :: t in after ==>
      after[t] == TypeCount(CountCorrect(cards[..i + 1], t, ok), CountType(cards[..i + 1], t))
  {
    CountStep(cards, i, ok);
    var t := cards[i].TypeTag();
    if t !in before {
      ZeroCounts(cards[..i], t, ok);
    }
  }

  /** How the counts grow when the loop reaches card `i`. */
  lemma CountStep(cards: seq<Card>, i: nat, ok: set<string>)
    requires i < |cards|
    ensures Tags(cards[..i + 1]) == Tags(cards[..i]) + {cards[i].TypeTag()}
    ensures forall t :: CountType(cards[..i + 1], t) == CountType(cards[..i], t) + (if cards[i].TypeTag() == t then 1 else 0)
    ensures forall t ::
      CountCorrect(cards[..i + 1], t, ok) == CountCorrect(cards[..i], t, ok) + (if cards[i].TypeTag() == t && cards[i].id in ok then 1 else 0)
  {
    assert cards[..i + 1][..i] == cards[..i];
  }

  /** A type that no card has is counted zero times. */
  lemma {:induction false} ZeroCounts(cards: seq<Card>, t: string, ok: set<string>)
    requires t !in Tags(cards)
    ensures CountType(cards, t) == 0 && CountCorrect(cards, t, ok) == 0
  {
    if cards != [] {
      ZeroCounts(cards[..|cards| - 1], t, ok);
    }
  }

  /** An id once answered correctly stays counted, whatever answers follow. */
  lemma CorrectNotCancelled(results: seq<AnswerResult>, later: seq<AnswerResult>)
    ensures CorrectIds(results) <= CorrectIds(results + later)
  {
    forall id | id in CorrectIds(results) ensures id in CorrectIds(results + later) {
      var k :| 0 <= k < |results| && results[k].correct && results[k].id == id;
      assert (results + later)[k] == results[k];
    }
  }

  /** A type's correct count never exceeds its total. */
  lemma {:induction false} CorrectAtMostTotal(cards: seq<Card>, t: string, ok: set<string>)
    ensures CountCorrect(cards, t, ok) <= CountType(cards, t)
  {
    if cards != [] {
      CorrectAtMostTotal(cards[..|cards| - 1], t, ok);
    }
  }

  /** Every card has one of the three type tags, so the per-type totals add up to the deck size. */
  lemma {:induction false} TotalsSum(cards: seq<Card>)
    ensures CountType(cards, "definition") + CountType(cards, "shape") + CountType(cards, "word") == |cards|
  {
    if cards != [] {
      TotalsSum(cards[..|cards| - 1]);
    }
  }

  /** Without results nothing is correct: the score and every correct count are zero. */
  lemma {:induction false} NoResultsNoCorrect(cards: seq<Card>, t: string)
    ensures |CorrectIds([])| == 0
    ensures CountCorrect(cards, t, CorrectIds([])) == 0
  {
    if cards != [] {
      NoResultsNoCorrect(cards[..|cards| - 1], t);
    }
  }
}
