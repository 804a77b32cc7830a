/**
 * The ASVAB practice test's static helpers: the 45-question pool drawn from
 * the Arithmetic Reasoning and Math Knowledge subjects with a quota of word
 * problems, and the AFQT-style estimate of the final score.
 */
module Asvab {
  import opened Cards

  // ---------------------------------------------------------------------
  // AFQT estimate
  // ---------------------------------------------------------------------

  /**
   * `Math.round(n / d)` in exact arithmetic for a positive `d`: the integer
   * nearest to n/d, a half rounded up.
   */
  function RoundDiv(n: int, d: int): (k: int)
    requires d > 0
    ensures 2 * k * d - d <= 2 * n < 2 * k * d + d
  {
    var k := (2 * n + d) / (2 * d);
    assert 2 * d * k <= 2 * n + d < 2 * d * k + 2 * d by {
      DivBounds(2 * n + d, 2 * d);
    }
    k
  }

  lemma DivBounds(a: int, b: int)
    requires b > 0
    ensures b * (a / b) <= a < b * (a / b) + b
  {
  }

  lemma MulMono(a: int, b: int, c: int)
    requires a <= b && c > 0
    ensures a * c <= b * c
  {
  }

  /**
   * `computeAfqtEstimate(correct, total)`: the percentage of correct answers,
   * rounded to the nearest integer and clamped to 0..99; 0 when there were no
   * questions. The ensures clauses pin the value down: strictly inside the
   * range it is the integer nearest to 100 * correct / total (halves up), 99
   * means the percentage is at least 98.5 and 0 means it is below 0.5.
   */
  function ComputeAfqtEstimate(correct: int, total: int): (r: int)
    ensures 0 <= r <= 99
    ensures total <= 0 ==> r == 0
    ensures total > 0 && 0 < r < 99 ==> (2 * r - 1) * total <= 200 * correct < (2 * r + 1) * total
    ensures total > 0 && r == 0 ==> 200 * correct < total
    ensures total > 0 && r == 99 ==> 197 * total <= 200 * correct
  {
    if total <= 0 then 0
    else
      var k := RoundDiv(100 * correct, total);
      assert 2 * k * total - total == (2 * k - 1) * total;
      assert 2 * k * total + total == (2 * k + 1) * total;
      if k >= 99 then
        assert 197 * total <= (2 * k - 1) * total by { MulMono(197, 2 * k - 1, total); }
        99
      else if k <= 0 then
        assert (2 * k + 1) * total <= total by { MulMono(2 * k + 1, 1, total); }
        0
      else k
  }

  /** A perfect section scores 99, an empty one 0, and 22 of 45 rounds 48.9 up to 49. */
  lemma AfqtExamples()
    ensures ComputeAfqtEstimate(0, 45) == 0
    ensures ComputeAfqtEstimate(45, 45) == 99
    ensures ComputeAfqtEstimate(22, 45) == 49
  {
  }

  /** Every perfect score with at least one question is 99. */
  lemma AfqtPerfect(n: int)
    requires n > 0
    ensures ComputeAfqtEstimate(n, n) == 99
  {
  }

  // ---------------------------------------------------------------------
  // Pool building
  // ---------------------------------------------------------------------

  const wordProblems := "Word Problems"

  /** Subjects of Arithmetic Reasoning or of Math Knowledge. */
  predicate IsArMk(c: Card)
  {
    c.subject in {"Arithmetic", "Word Problems"} || c.subject in {"Pre-Algebra", "Algebra", "Geometry", "Arithmetic"}
  }

  predicate IsWordProblem(c: Card)
  {
    c.subject == wordProblems
  }

  function IdSet(s: seq<Card>): set<string>
  {
    set c | c in s :: c.id
  }

  /** No two positions hold cards with the same id. */
  predicate UniqueIds(s: seq<Card>)
  {
    forall i, j :: 0 <= i < j < |s| ==> s[i].id != s[j].id
  }

  /** The ids of the word-problem cards in `s`. */
  function WordIds(s: seq<Card>): set<string>
  {
    set c | c in s && IsWordProblem(c) :: c.id
  }

  /** Caller-supplied randomness: `shuffle(site, s)` is some reordering of `s`. */
  ghost predicate IsShuffler(shuffle: (nat, seq<Card>) -> seq<Card>)
  {
    forall site, s :: multiset(shuffle(site, s)) == multiset(s)
  }

  /** `arr.filter(p)` */
  function Filter(s: seq<Card>, p: Card -> bool): (r: seq<Card>)
    ensures forall c :: c in r <==> c in s && p(c)
    ensures |r| <= |s|
    ensures UniqueIds(s) ==> UniqueIds(r)
  {
    if s == [] then []
    else
      var rest := Filter(s[1..], p);
      if p(s[0]) then
        KeepHeadUnique(s, rest);
        [s[0]] + rest
      else
        (if UniqueIds(s) then UniqueIdsTail(s); rest else rest)
  }

  lemma KeepHeadUnique(s: seq<Card>, rest: seq<Card>)
    requires s != []
    requires forall c :: c in rest ==> c in s[1..]
    requires UniqueIds(s[1..]) ==> UniqueIds(rest)
    ensures UniqueIds(s) ==> UniqueIds([s[0]] + rest)
  {
    if UniqueIds(s) {
      UniqueIdsTail(s);
      assert IdSet(rest) <= IdSet(s[1..]);
      UniqueIdsCons(s[0], rest);
    }
  }

  /** `arr.slice(0, n)`, including a negative `n`, which counts from the end. */
  function JsTake(s: seq<Card>, n: int): (r: seq<Card>)
    ensures |r| <= |s| && r == s[..|r|]
    ensures n >= 0 ==> |r| == if n <= |s| then n else |s|
    ensures n < 0 ==> |r| == if |s| + n >= 0 then |s| + n else 0
  {
    if n >= 0 then (if n <= |s| then s[..n] else s)
    else if |s| + n >= 0 then s[..|s| + n]
    else []
  }

  lemma UniqueIdsTail(s: seq<Card>)
    requires s != [] && UniqueIds(s)
    ensures UniqueIds(s[1..]) && s[0].id !in IdSet(s[1..])
  {
  }

  lemma UniqueIdsCons(x: Card, t: seq<Card>)
    requires UniqueIds(t) && x.id !in IdSet(t)
    ensures UniqueIds([x] + t)
  {
    var s := [x] + t;
    forall i, j | 0 <= i < j < |s| ensures s[i].id != s[j].id {
      if i == 0 { assert s[j] in t; } else { assert s[i] == t[i - 1] && s[j] == t[j - 1]; }
    }
  }

  lemma UniqueIdsPrefix(s: seq<Card>, n: nat)
    requires UniqueIds(s) && n <= |s|
    ensures UniqueIds(s[..n])
  {
  }

  lemma UniqueIdsAppend(a: seq<Card>, b: seq<Card>)
    requires UniqueIds(a) && UniqueIds(b) && IdSet(a) !! IdSet(b)
    ensures UniqueIds(a + b)
  {
    var s := a + b;
    forall i, j | 0 <= i < j < |s| ensures s[i].id != s[j].id {
      if j < |a| {
      } else if i >= |a| {
        assert s[i] == b[i - |a|] && s[j] == b[j - |a|];
      } else {
        assert s[i] in a && s[j] in b;
        assert s[i].id in IdSet(a) && s[j].id in IdSet(b);
      }
    }
  }

  /** With unique ids there are as many ids as cards; otherwise fewer. */
  lemma {:induction false} IdSetSize(s: seq<Card>)
    ensures |IdSet(s)| <= |s|
    ensures UniqueIds(s) <==> |IdSet(s)| == |s|
  {
    if s != [] {
      var t := s[1..];
      IdSetSize(t);
      assert s == [s[0]] + t;
      assert IdSet(s) == {s[0].id} + IdSet(t);
      if s[0].id in IdSet(t) {
        assert IdSet(s) == IdSet(t);
        if UniqueIds(s) { UniqueIdsTail(s); }
      } else {
        if UniqueIds(t) { UniqueIdsCons(s[0], t); }
        if UniqueIds(s) { UniqueIdsTail(s); }
      }
    }
  }

  /** A reordering keeps the cards, their number, their ids and the uniqueness of ids. */
  lemma PermutationKeeps(a: seq<Card>, b: seq<Card>)
    requires multiset(a) == multiset(b)
    ensures |a| == |b|
    ensures forall c :: c in a <==> c in b
    ensures IdSet(a) == IdSet(b) && WordIds(a) == WordIds(b)
    ensures UniqueIds(a) ==> UniqueIds(b)
  {
    assert |multiset(a)| == |a| && |multiset(b)| == |b|;
    assert forall c :: c in a <==> c in multiset(a);
    assert forall c :: c in b <==> c in multiset(b);
    IdSetSize(a);
    IdSetSize(b);
  }

  /** `arr.filter((c) => !picked.find((p) => p.id === c.id))` */
  function Exclude(s: seq<Card>, picked: seq<Card>): (r: seq<Card>)
    ensures forall c :: c in r <==> c in s && c.id !in IdSet(picked)
    ensures UniqueIds(s) ==> UniqueIds(r)
    ensures IdSet(r) !! IdSet(picked)
  {
    var r := Filter(s, (c: Card) => c.id !in IdSet(picked));
    assert forall id :: id in IdSet(r) ==> exists c :: c in r && c.id == id;
    r
  }

  /** What holds of the growing selection: its cards come from the deck, with unique ids if the deck has them. */
  ghost predicate GoodPick(allCards: seq<Card>, pick: seq<Card>)
  {
    && (forall c :: c in pick ==> c in allCards)
    && (UniqueIds(allCards) ==> UniqueIds(pick))
  }

  /** Pushing a prefix of a reordering of the not-yet-picked cards of a sub-pool keeps the selection good. */
  lemma Extend(allCards: seq<Card>, pick: seq<Card>, pool: seq<Card>, shuffled: seq<Card>, n: int)
    requires GoodPick(allCards, pick)
    requires forall c :: c in pool ==> c in allCards
    requires UniqueIds(allCards) ==> UniqueIds(pool)
    requires multiset(shuffled) == multiset(Exclude(pool, pick))
    ensures GoodPick(allCards, pick + JsTake(shuffled, n))
    ensures |shuffled| == |Exclude(pool, pick)|
    ensures forall c :: c in JsTake(shuffled, n) ==> c in pool
  {
    var unpicked := Exclude(pool, pick);
    PermutationKeeps(unpicked, shuffled);
    var added := JsTake(shuffled, n);
    assert forall c :: c in added ==> c in shuffled;
    if UniqueIds(allCards) {
      UniqueIdsPrefix(shuffled, |added|);
      assert IdSet(added) <= IdSet(shuffled);
      UniqueIdsAppend(pick, added);
    }
  }

  /** A duplicate-free selection from a deck with unique ids is no longer than the deck. */
  lemma GoodPickSize(allCards: seq<Card>, pick: seq<Card>)
    requires UniqueIds(allCards) && GoodPick(allCards, pick)
    ensures |pick| <= |allCards|
  {
    IdSetSize(allCards);
    IdSetSize(pick);
    SubsetSize(IdSet(pick), IdSet(allCards));
  }

  lemma SubsetSize<T>(a: set<T>, b: set<T>)
    requires a <= b
    ensures |a| <= |b|
  {
    assert b == a + (b - a);
  }

  /**
   * Removing the cards whose ids a duplicate-free selection from the deck uses
   * leaves exactly the other cards.
   */
  lemma ExcludeSize(allCards: seq<Card>, pick: seq<Card>)
    requires UniqueIds(allCards) && GoodPick(allCards, pick)
    ensures |Exclude(allCards, pick)| == |allCards| - |pick|
  {
    var e := Exclude(allCards, pick);
    assert IdSet(e) == IdSet(allCards) - IdSet(pick);
    assert IdSet(pick) <= IdSet(allCards);
    IdSetSize(allCards);
    IdSetSize(pick);
    IdSetSize(e);
  }

  /**
   * The padding step keeps the selection good and, with unique ids, tops a
   * short selection up to min(total, |allCards|).
   */
  lemma Pad(allCards: seq<Card>, pick: seq<Card>, extras: seq<Card>, total: int)
    requires GoodPick(allCards, pick) && |pick| < total
    requires multiset(extras) == multiset(Exclude(allCards, pick))
    ensures GoodPick(allCards, pick + JsTake(extras, total - |pick|))
    ensures UniqueIds(allCards) ==> |pick + JsTake(extras, total - |pick|)| == Min(total, |allCards|)
  {
    Extend(allCards, pick, allCards, extras, total - |pick|);
    if UniqueIds(allCards) {
      ExcludeSize(allCards, pick);
      PermutationKeeps(Exclude(allCards, pick), extras);
    }
  }

  /** Taking a prefix of a reordering of a sub-pool gives a good first selection. */
  lemma Start(allCards: seq<Card>, pool: seq<Card>, shuffled: seq<Card>, n: int)
    requires forall c :: c in pool ==> c in allCards
    requires UniqueIds(allCards) ==> UniqueIds(pool)
    requires multiset(shuffled) == multiset(pool)
    ensures GoodPick(allCards, JsTake(shuffled, n))
    ensures 0 <= n <= |pool| ==> |JsTake(shuffled, n)| == n
  {
    PermutationKeeps(pool, shuffled);
    var taken := JsTake(shuffled, n);
    assert forall c :: c in taken ==> c in shuffled;
    if UniqueIds(allCards) { UniqueIdsPrefix(shuffled, |taken|); }
  }

  /** The final reorder-and-cut keeps a good selection good and, when it is short enough, keeps all of it. */
  lemma Finish(allCards: seq<Card>, pick: seq<Card>, finalOrder: seq<Card>, total: int)
    requires GoodPick(allCards, pick)
    requires multiset(finalOrder) == multiset(pick)
    ensures GoodPick(allCards, JsTake(finalOrder, total))
    ensures forall c :: c in JsTake(finalOrder, total) ==> c in pick
    ensures 0 <= |pick| <= total ==>
      |JsTake(finalOrder, total)| == |pick| && WordIds(JsTake(finalOrder, total)) == WordIds(pick)
  {
    PermutationKeeps(pick, finalOrder);
    var r := JsTake(finalOrder, total);
    assert forall c :: c in r ==> c in finalOrder;
    if UniqueIds(allCards) { UniqueIdsPrefix(finalOrder, |r|); }
    if 0 <= |pick| <= total { assert r == finalOrder; }
  }

  /** A selection of word problems with unique ids contributes that many word-problem ids to any superset. */
  lemma WordIdsCover(w: seq<Card>, r: seq<Card>)
    requires UniqueIds(w)
    requires forall c :: c in w ==> c in r && IsWordProblem(c)
    ensures |WordIds(r)| >= |w|
  {
    assert IdSet(w) <= WordIds(r);
    IdSetSize(w);
    SubsetSize(IdSet(w), WordIds(r));
  }

  function Min(a: int, b: int): int { if a <= b then a else b }

  /**
   * `pick.push(...shuffle(pool.filter(not yet picked)).slice(0, n))`: the
   * cards pushed come from `pool`, and for a non-negative `n` there are
   * min(n, number of pool cards not yet picked) of them.
   */
  method FillFrom(allCards: seq<Card>, pick: seq<Card>, pool: seq<Card>, n: int, shuffle: (nat, seq<Card>) -> seq<Card>)
    returns (p: seq<Card>)
    requires IsShuffler(shuffle) && GoodPick(allCards, pick)
    requires forall c :: c in pool ==> c in allCards
    requires UniqueIds(allCards) ==> UniqueIds(pool)
    ensures GoodPick(allCards, p)
    ensures pick <= p
    ensures n >= 0 ==> |p| <= |pick| + n
    ensures forall c :: c in p[|pick|..] ==> c in pool
    ensures n >= 0 ==> |p| == |pick| + Min(n, |Exclude(pool, pick)|)
  {
    var available := shuffle(1, Exclude(pool, pick));
    Extend(allCards, pick, pool, available, n);
    p := pick + JsTake(available, n);
  }

  /** Pads a selection shorter than `total` with reordered cards of the deck not yet picked. */
  method PadTo(allCards: seq<Card>, pick: seq<Card>, total: int, shuffle: (nat, seq<Card>) -> seq<Card>)
    returns (p: seq<Card>)
    requires IsShuffler(shuffle) && GoodPick(allCards, pick)
    ensures GoodPick(allCards, p)
    ensures pick <= p
    ensures |pick| >= total ==> p == pick
    ensures |pick| < total ==> |p| <= total
    ensures UniqueIds(allCards) && |pick| < total ==> |p| == Min(total, |allCards|)
  {
    p := pick;
    if |pick| < total {
      var extras := shuffle(2, Exclude(allCards, pick));
      Pad(allCards, pick, extras, total);
      p := pick + JsTake(extras, total - |pick|);
    }
  }

  /**
   * `buildAsvabPool(allCards, total, minWordProblems)`. Each `shuffle` call of
   * the source is `shuffle(site, ...)` here, `site` telling the four call
   * sites apart.
   *
   * Every card returned comes from `allCards`; a non-negative `total` bounds
   * the length; unique ids stay unique. When the ids are unique, the quota
   * is non-negative and fits in `total`, the pool has min(total, |allCards|)
   * cards, of which at least min(minWordProblems, #word problems) are word
   * problems; and when the Arithmetic Reasoning / Math Knowledge subjects
   * alone have `total` cards, no other card is padded in.
   */
  method BuildAsvabPool(allCards: seq<Card>, total: int, minWordProblems: int, shuffle: (nat, seq<Card>) -> seq<Card>)
    returns (r: seq<Card>)
    requires IsShuffler(shuffle)
    ensures total >= 0 ==> |r| <= total
    ensures forall c :: c in r ==> c in allCards
    ensures UniqueIds(allCards) ==> UniqueIds(r)
    ensures var takeWord := Min(minWordProblems, |Filter(allCards, IsWordProblem)|);
      UniqueIds(allCards) && 0 <= minWordProblems && takeWord <= total ==>
        |r| == Min(total, |allCards|) && |WordIds(r)| >= takeWord
    ensures var takeWord := Min(minWordProblems, |Filter(allCards, IsWordProblem)|);
      UniqueIds(allCards) && 0 <= minWordProblems && takeWord <= total && |Filter(allCards, IsArMk)| >= total ==>
        forall c :: c in r ==> IsArMk(c)
  {
    var wordPool := Filter(allCards, IsWordProblem);
    var arMkPool := Filter(allCards, IsArMk);

    var pick: seq<Card> := [];
    // Word problems first: the quota, or all of them when fewer exist
    var takeWord := Min(minWordProblems, |wordPool|);
    var shuffledWords := shuffle(0, wordPool);
    Start(allCards, wordPool, shuffledWords, takeWord);
    pick := pick + JsTake(shuffledWords, takeWord);
    ghost var wordPick := pick;
    assert forall c :: c in wordPick ==> IsWordProblem(c) by {
      assert forall c :: c in wordPick ==> c in shuffledWords;
      PermutationKeeps(wordPool, shuffledWords);
    }

    // Fill the remainder from the AR/MK pool, excluding what is already picked
    ghost var beforeFill := pick;
    pick := FillFrom(allCards, pick, arMkPool, total - |pick|, shuffle);

    // Pad with any other cards when still short
    ghost var beforePad := pick;
    pick := PadTo(allCards, pick, total, shuffle);
    assert wordPick <= beforePad <= pick;

    var finalOrder := shuffle(3, pick);
    Finish(allCards, pick, finalOrder, total);
    r := JsTake(finalOrder, total);

    if UniqueIds(allCards) && 0 <= minWordProblems && takeWord <= total {
      SizeAndQuota(allCards, wordPick, beforePad, pick, total);
      if |arMkPool| >= total {
        ArMkFill(allCards, arMkPool, wordPick, beforePad, total);
      }
    }
  }

  /**
   * With unique ids and at least `total` Arithmetic Reasoning / Math
   * Knowledge cards, the word problems plus the fill from that pool already
   * reach `total`, so every card selected has one of those subjects.
   */
  lemma ArMkFill(allCards: seq<Card>, arMkPool: seq<Card>, wordPick: seq<Card>, beforePad: seq<Card>, total: int)
    requires UniqueIds(allCards) && arMkPool == Filter(allCards, IsArMk)
    requires |wordPick| <= total <= |arMkPool|
    requires GoodPick(allCards, wordPick) && forall c :: c in wordPick ==> IsWordProblem(c)
    requires wordPick <= beforePad
    requires forall c :: c in beforePad[|wordPick|..] ==> c in arMkPool
    requires |beforePad| == |wordPick| + Min(total - |wordPick|, |Exclude(arMkPool, wordPick)|)
    ensures |beforePad| == total
    ensures forall c :: c in beforePad ==> IsArMk(c)
  {
    assert GoodPick(arMkPool, wordPick);
    ExcludeSize(arMkPool, wordPick);
    forall c | c in beforePad ensures IsArMk(c) {
      var i :| 0 <= i < |beforePad| && beforePad[i] == c;
      if i >= |wordPick| {
        assert c == beforePad[|wordPick|..][i - |wordPick|];
      } else {
        assert c in wordPick;
      }
    }
  }

  /**
   * The final selection, before the last reordering: its size is
   * min(total, |allCards|) and it keeps the word problems picked first.
   */
  lemma SizeAndQuota(allCards: seq<Card>, wordPick: seq<Card>, beforePad: seq<Card>, pick: seq<Card>, total: int)
    requires UniqueIds(allCards) && 0 <= |wordPick| <= total
    requires GoodPick(allCards, wordPick) && forall c :: c in wordPick ==> IsWordProblem(c)
    requires wordPick <= beforePad <= pick && GoodPick(allCards, beforePad) && GoodPick(allCards, pick)
    requires |beforePad| <= total
    requires |beforePad| >= total ==> pick == beforePad
    requires |beforePad| < total ==> |pick| == Min(total, |allCards|)
    ensures |pick| <= total && |pick| == Min(total, |allCards|)
    ensures |WordIds(pick)| >= |wordPick|
  {
    assert forall c :: c in wordPick ==> c in pick;
    WordIdsCover(wordPick, pick);
    if |beforePad| >= total { GoodPickSize(allCards, beforePad); }
  }
}
