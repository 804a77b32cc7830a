/**
 * The adaptive ASVAB section: question pools per difficulty tier, a
 * current tier, per-tier asked and correct counts, a streak of correct
 * answers, per-tier fail streaks and a hint flag. `nextQuestion` pops a
 * question from a tier chosen from the current one (fast-tracking upwards
 * after two correct answers in a row); `submitAnswer` records an answer
 * and, once a tier's pool is used up, promotes or demotes the current tier.
 *
 * The state is described by the value `Section` and the functions `Next`
 * and `Submit`; the class `AdaptiveSection` updates its fields in place
 * and each of its methods is proved to move its state as those functions do.
 */
module AdaptiveAsvab {
  import opened Text

  datatype Question = Question(id: string, prompt: string, answer: string)

  /** The fields of an `AdaptiveSection`. */
  datatype Section = Section(
    tiers: seq<seq<Question>>, tierIndex: int,
    askedCounts: seq<nat>, correctCounts: seq<nat>,
    consecutiveCorrect: nat, failStreakForTier: seq<nat>, hintMode: bool)

  /** What `nextQuestion` returns, with the state it leaves. */
  datatype Pick = Pick(q: Option<Question>, tier: int, after: Section)

  /** The tier the constructor starts from when none is given. */
  const defaultStartTier := 2

  /** The per-tier arrays have one entry per tier, and the current tier is a tier (0 when there are none). */
  predicate WellFormed(s: Section)
  {
    && |s.askedCounts| == |s.tiers| && |s.correctCounts| == |s.tiers| && |s.failStreakForTier| == |s.tiers|
    && 0 <= s.tierIndex && (|s.tiers| == 0 ==> s.tierIndex == 0) && (|s.tiers| > 0 ==> s.tierIndex < |s.tiers|)
  }

  /** Every question of a tier is either asked or still in its pool: asked plus remaining is the initial size. */
  predicate Conserves(s: Section, sizes: seq<nat>)
  {
    && |sizes| == |s.tiers| && |s.askedCounts| == |s.tiers|
    && forall i :: 0 <= i < |s.tiers| ==> s.askedCounts[i] + |s.tiers[i]| == sizes[i]
  }

  /** `allEmpty()`: every pool is empty. */
  predicate AllEmpty(tiers: seq<seq<Question>>)
  {
    forall i :: 0 <= i < |tiers| ==> tiers[i] == []
  }

  /** The forward loop of `findNextNonEmptyTier`: the lowest non-empty tier at or above `from`, or -1. */
  function FirstNonEmpty(tiers: seq<seq<Question>>, from: int): (r: int)
    requires 0 <= from
    decreases |tiers| - from
    ensures r == -1 <==> forall i :: from <= i < |tiers| ==> tiers[i] == []
    ensures r != -1 ==> from <= r < |tiers| && tiers[r] != [] && forall i :: from <= i < r ==> tiers[i] == []
  {
    if from >= |tiers| then -1
    else if tiers[from] != [] then from
    else FirstNonEmpty(tiers, from + 1)
  }

  /** The backward loop of `findNextNonEmptyTier`: the highest non-empty tier below `from`, or -1. */
  function LastNonEmptyBelow(tiers: seq<seq<Question>>, from: int): (r: int)
    requires from <= |tiers|
    decreases from
    ensures r == -1 <==> forall i :: 0 <= i < from ==> tiers[i] == []
    ensures r != -1 ==> 0 <= r < from && tiers[r] != [] && forall i :: r < i < from ==> tiers[i] == []
  {
    if from <= 0 then -1
    else if tiers[from - 1] != [] then from - 1
    else LastNonEmptyBelow(tiers, from - 1)
  }

  /**
   * `findNextNonEmptyTier(from, dir)`: forward only when `dir` is 1;
   * otherwise forward first, then backward below `from`.
   */
  function FindNext(tiers: seq<seq<Question>>, from: int, dir: int): (r: int)
    requires 0 <= from && (dir != 1 ==> from <= |tiers|)
    ensures r == -1 || (0 <= r < |tiers| && tiers[r] != [])
    ensures dir != 1 ==> (r == -1 <==> AllEmpty(tiers))
  {
    var up := FirstNonEmpty(tiers, from);
    if dir == 1 || up != -1 then up
    else LastNonEmptyBelow(tiers, from)
  }

  /** Pop the last question of tier `t` and count it as asked. */
  function Take(s: Section, t: int): Pick
    requires 0 <= t < |s.tiers| && |s.askedCounts| == |s.tiers| && s.tiers[t] != []
  {
    var pool := s.tiers[t];
    Pick(Some(pool[|pool| - 1]), t,
         s.(tiers := s.tiers[t := pool[..|pool| - 1]], askedCounts := s.askedCounts[t := s.askedCounts[t] + 1]))
  }

  /**
   * `nextQuestion()`: either no question, with tier -1 and the state
   * untouched, or the last question of a non-empty tier, popped from it.
   */
  function Next(s: Section): (r: Pick)
    requires WellFormed(s)
    ensures WellFormed(r.after)
    ensures r.q.None? ==> r.tier == -1 && r.after == s
    ensures r.q.Some? ==>
      && 0 <= r.tier < |s.tiers| && s.tiers[r.tier] != []
      && r.q.value == s.tiers[r.tier][|s.tiers[r.tier]| - 1]
      && r.after.tiers == s.tiers[r.tier := s.tiers[r.tier][..|s.tiers[r.tier]| - 1]]
  {
    if AllEmpty(s.tiers) then Pick(None, -1, s)
    else if s.consecutiveCorrect >= 2 && FindNext(s.tiers, s.tierIndex + 1, 1) != -1 then
      var p := Take(s, FindNext(s.tiers, s.tierIndex + 1, 1));
      p.(after := p.after.(consecutiveCorrect := 0))
    else if |s.tiers[s.tierIndex]| > 0 then Take(s, s.tierIndex)
    else
      var next := FindNext(s.tiers, s.tierIndex, -1);
      if next != -1 then Take(s, next) else Pick(None, -1, s)
  }

  /** `originalTierSize(tier)`: asked plus remaining, or 5 when that is 0. */
  function OriginalTierSize(s: Section, tier: int): nat
    requires 0 <= tier < |s.tiers| && |s.askedCounts| == |s.tiers|
  {
    var total := s.askedCounts[tier] + |s.tiers[tier]|;
    if total == 0 then 5 else total
  }

  function Min(a: int, b: int): int { if a <= b then a else b }

  function Max(a: int, b: int): int { if a >= b then a else b }

  /**
   * The end-of-tier evaluation with `correct` answers in the finished tier:
   * promote the current tier at 4 or more, keep it at 3, demote it below 3.
   */
  function Evaluate(s: Section, correct: nat): (r: Section)
    requires WellFormed(s) && |s.tiers| > 0
    ensures WellFormed(r)
  {
    if correct >= 4 then
      var up := Min(|s.tiers| - 1, s.tierIndex + 1);
      s.(tierIndex := up, failStreakForTier := s.failStreakForTier[up := 0])
    else if correct == 3 then s
    else
      var fails := s.failStreakForTier[s.tierIndex := s.failStreakForTier[s.tierIndex] + 1];
      var hint := if fails[s.tierIndex] >= 2 then true else s.hintMode;
      s.(failStreakForTier := fails, hintMode := hint, tierIndex := Max(0, s.tierIndex - 1))
  }

  /** `submitAnswer(tier, correct)`. */
  function Submit(s: Section, tier: int, correct: bool): (r: Section)
    requires WellFormed(s)
    ensures WellFormed(r)
    ensures r.tiers == s.tiers && r.askedCounts == s.askedCounts
    ensures s.hintMode ==> r.hintMode
    ensures tier < 0 || tier >= |s.tiers| ==> r == s
  {
    if tier < 0 || tier >= |s.tiers| then s
    else
      var s1 :=
        if correct then
          s.(correctCounts := s.correctCounts[tier := s.correctCounts[tier] + 1],
             consecutiveCorrect := s.consecutiveCorrect + 1)
        else
          var asked := s.askedCounts[tier];
          var correctSoFar := s.correctCounts[tier];
          s.(consecutiveCorrect := 0, hintMode := if asked >= 3 && correctSoFar <= 1 then true else s.hintMode);
      if s1.askedCounts[tier] >= OriginalTierSize(s1, tier) then Evaluate(s1, s1.correctCounts[tier]) else s1
  }

  /** `allEmpty()` holds exactly when the forward search from tier 0 finds nothing. */
  lemma AllEmptyIffNoTier(tiers: seq<seq<Question>>)
    ensures AllEmpty(tiers) <==> FirstNonEmpty(tiers, 0) == -1
  {
  }

  /** `nextQuestion` gives no question, and tier -1, exactly when every pool is empty; then nothing changes. */
  lemma NextNoneIffAllEmpty(s: Section)
    requires WellFormed(s)
    ensures Next(s).q.None? <==> AllEmpty(s.tiers)
    ensures Next(s).q.None? <==> Next(s).tier == -1
    ensures Next(s).q.None? ==> Next(s).after == s
  {
    if !AllEmpty(s.tiers) && !(s.consecutiveCorrect >= 2 && FindNext(s.tiers, s.tierIndex + 1, 1) != -1)
      && |s.tiers[s.tierIndex]| == 0
    {
      assert FindNext(s.tiers, s.tierIndex, -1) != -1;
    }
  }

  /**
   * A question, when there is one, is the last one of the reported tier's
   * pool; that pool loses it, that tier's asked count grows by one, and
   * nothing else changes but the streak reset of a fast-track. Asked plus
   * remaining stays the initial size for every tier.
   */
  lemma NextPops(s: Section, sizes: seq<nat>)
    requires WellFormed(s) && Conserves(s, sizes) && Next(s).q.Some?
    ensures var p := Next(s);
      && 0 <= p.tier < |s.tiers| && s.tiers[p.tier] != []
      && p.q.value == s.tiers[p.tier][|s.tiers[p.tier]| - 1]
      && p.after.tiers == s.tiers[p.tier := s.tiers[p.tier][..|s.tiers[p.tier]| - 1]]
      && p.after.askedCounts == s.askedCounts[p.tier := s.askedCounts[p.tier] + 1]
      && p.after.tierIndex == s.tierIndex && p.after.correctCounts == s.correctCounts
      && p.after.failStreakForTier == s.failStreakForTier && p.after.hintMode == s.hintMode
      && WellFormed(p.after) && Conserves(p.after, sizes)
  {
  }

  /**
   * Fast-track: after two correct answers in a row, when some tier above
   * the current one has questions, the question comes from the lowest such
   * tier and the streak starts again from 0.
   */
  lemma NextFastTrack(s: Section, j: int)
    requires WellFormed(s) && s.consecutiveCorrect >= 2
    requires s.tierIndex < j < |s.tiers| && s.tiers[j] != []
    ensures var p := Next(s);
      && s.tierIndex < p.tier <= j && s.tiers[p.tier] != []
      && (forall i :: s.tierIndex < i < p.tier ==> s.tiers[i] == [])
      && p.after.consecutiveCorrect == 0
  {
  }

  /**
   * Without a fast-track the question comes from the current tier when it
   * has one, else from the lowest non-empty tier above it, else from the
   * highest non-empty tier below it; the streak is left as it is.
   */
  lemma NextWithoutFastTrack(s: Section)
    requires WellFormed(s) && !AllEmpty(s.tiers)
    requires s.consecutiveCorrect < 2 || forall i :: s.tierIndex < i < |s.tiers| ==> s.tiers[i] == []
    ensures var p := Next(s);
      && p.q.Some? && p.after.consecutiveCorrect == s.consecutiveCorrect
      && (s.tiers[s.tierIndex] != [] ==> p.tier == s.tierIndex)
      && (s.tiers[s.tierIndex] == [] && p.tier > s.tierIndex ==>
            forall i :: s.tierIndex <= i < p.tier ==> s.tiers[i] == [])
      && (s.tiers[s.tierIndex] == [] && p.tier < s.tierIndex ==>
            (forall i :: s.tierIndex <= i < |s.tiers| ==> s.tiers[i] == [])
            && forall i :: p.tier < i < s.tierIndex ==> s.tiers[i] == [])
  {
    if s.consecutiveCorrect >= 2 {
      assert FindNext(s.tiers, s.tierIndex + 1, 1) == -1;
    }
    NextNoneIffAllEmpty(s);
  }

  /** Fast-track with no question above: the streak is kept. */
  lemma NextNoHigherKeepsStreak(s: Section)
    requires WellFormed(s) && forall i :: s.tierIndex < i < |s.tiers| ==> s.tiers[i] == []
    ensures Next(s).after.consecutiveCorrect == s.consecutiveCorrect
  {
  }

  /** The tier is evaluated exactly when its pool is used up and at least one of its questions was asked. */
  lemma EvaluatesIffExhausted(s: Section, tier: int)
    requires 0 <= tier < |s.tiers| && |s.askedCounts| == |s.tiers|
    ensures s.askedCounts[tier] >= OriginalTierSize(s, tier) <==> s.tiers[tier] == [] && s.askedCounts[tier] > 0
  {
  }

  /** A correct answer raises the tier's correct count and the streak by one. */
  lemma SubmitCorrect(s: Section, tier: int)
    requires WellFormed(s) && 0 <= tier < |s.tiers|
    ensures Submit(s, tier, true).correctCounts == s.correctCounts[tier := s.correctCounts[tier] + 1]
    ensures Submit(s, tier, true).consecutiveCorrect == s.consecutiveCorrect + 1
  {
  }

  /**
   * A wrong answer resets the streak, leaves the correct counts alone, and
   * turns hints on when at least three of the tier's questions were asked
   * and at most one answered correctly.
   */
  lemma SubmitIncorrect(s: Section, tier: int)
    requires WellFormed(s) && 0 <= tier < |s.tiers|
    ensures Submit(s, tier, false).consecutiveCorrect == 0
    ensures Submit(s, tier, false).correctCounts == s.correctCounts
    ensures s.askedCounts[tier] >= 3 && s.correctCounts[tier] <= 1 ==> Submit(s, tier, false).hintMode
  {
  }

  /**
   * Before the tier's asked count reaches its original size, an answer moves
   * no tier and no fail streak, and hints come on only through the early
   * trigger: a wrong answer after three or more asked with at most one correct.
   */
  lemma SubmitBeforeExhausted(s: Section, tier: int, correct: bool)
    requires WellFormed(s) && 0 <= tier < |s.tiers| && s.askedCounts[tier] < OriginalTierSize(s, tier)
    ensures Submit(s, tier, correct).tierIndex == s.tierIndex
    ensures Submit(s, tier, correct).failStreakForTier == s.failStreakForTier
    ensures Submit(s, tier, correct).hintMode ==
      (s.hintMode || (!correct && s.askedCounts[tier] >= 3 && s.correctCounts[tier] <= 1))
  {
  }

  /** An answer moves the current tier by at most one. */
  lemma SubmitStepsByOne(s: Section, tier: int, correct: bool)
    requires WellFormed(s)
    ensures -1 <= Submit(s, tier, correct).tierIndex - s.tierIndex <= 1
  {
  }

  /**
   * With four or more correct answers in the finished tier the current
   * tier goes up one, unless it is the top one, and the new tier's fail
   * streak is cleared; the other fail streaks and the hint mode stay.
   */
  lemma SubmitPromotes(s: Section, tier: int, correct: bool)
    requires WellFormed(s) && 0 <= tier < |s.tiers| && s.tiers[tier] == [] && s.askedCounts[tier] > 0
    requires Submit(s, tier, correct).correctCounts[tier] >= 4
    ensures var r := Submit(s, tier, correct);
      && r.tierIndex == (if s.tierIndex == |s.tiers| - 1 then s.tierIndex else s.tierIndex + 1)
      && r.failStreakForTier == s.failStreakForTier[r.tierIndex := 0]
      && r.hintMode == s.hintMode
  {
  }

  /** With exactly three correct answers in the finished tier the current tier, the fail streaks and the hint mode stay. */
  lemma SubmitStays(s: Section, tier: int, correct: bool)
    requires WellFormed(s) && 0 <= tier < |s.tiers| && s.tiers[tier] == [] && s.askedCounts[tier] > 0
    requires Submit(s, tier, correct).correctCounts[tier] == 3
    ensures Submit(s, tier, correct).tierIndex == s.tierIndex
    ensures Submit(s, tier, correct).failStreakForTier == s.failStreakForTier
    ensures Submit(s, tier, correct).hintMode == s.hintMode
  {
  }

  /**
   * With fewer than three correct answers in the finished tier the current
   * tier's fail streak grows by one, and the current tier goes down one
   * unless it is the lowest. Hint mode is on afterwards exactly when it was
   * on before, the answer was wrong with 3 or more asked and at most 1
   * correct in the tier, or that fail streak has reached two.
   */
  lemma SubmitDemotes(s: Section, tier: int, correct: bool)
    requires WellFormed(s) && 0 <= tier < |s.tiers| && s.tiers[tier] == [] && s.askedCounts[tier] > 0
    requires Submit(s, tier, correct).correctCounts[tier] < 3
    ensures var r := Submit(s, tier, correct);
      && r.failStreakForTier == s.failStreakForTier[s.tierIndex := s.failStreakForTier[s.tierIndex] + 1]
      && r.hintMode == (s.hintMode || (!correct && s.askedCounts[tier] >= 3 && s.correctCounts[tier] <= 1)
                        || r.failStreakForTier[s.tierIndex] >= 2)
      && r.tierIndex == (if s.tierIndex == 0 then 0 else s.tierIndex - 1)
  {
  }

  /** The section object. */
  class AdaptiveSection {
    var tiers: seq<seq<Question>>
    var tierIndex: int
    var askedCounts: seq<nat>
    var correctCounts: seq<nat>
    var consecutiveCorrect: nat
    var failStreakForTier: seq<nat>
    var hintMode: bool
    /** The size of each tier's pool at construction. */
    ghost var initialSizes: seq<nat>

    function Model(): Section
      reads this
    {
      Section(tiers, tierIndex, askedCounts, correctCounts, consecutiveCorrect, failStreakForTier, hintMode)
    }

    ghost predicate Valid()
      reads this
    {
      WellFormed(Model()) && Conserves(Model(), initialSizes)
    }

    /**
     * `new AdaptiveSection(tiers, startTier)`. The pools are shuffled
     * copies of the given tiers; the order of each is supplied as `shuffled`.
     */
    constructor(source: seq<seq<Question>>, shuffled: seq<seq<Question>>, startTier: int := defaultStartTier)
      requires |shuffled| == |source|
      requires forall i :: 0 <= i < |source| ==> multiset(shuffled[i]) == multiset(source[i])
      ensures Valid()
      ensures initialSizes == seq(|source|, i requires 0 <= i < |source| => |source[i]|)
      ensures tiers == shuffled
      ensures tierIndex == Max(0, Min(startTier, |source| - 1))
      ensures askedCounts == Zeros(|source|) && correctCounts == Zeros(|source|)
      ensures failStreakForTier == Zeros(|source|)
      ensures consecutiveCorrect == 0 && !hintMode
    {
      tiers := shuffled;
      tierIndex := Max(0, Min(startTier, |source| - 1));
      askedCounts := Zeros(|source|);
      correctCounts := Zeros(|source|);
      consecutiveCorrect := 0;
      failStreakForTier := Zeros(|source|);
      hintMode := false;
      initialSizes := seq(|source|, i requires 0 <= i < |source| => |source[i]|);
      forall i | 0 <= i < |source| ensures |shuffled[i]| == |source[i]| {
        assert |multiset(shuffled[i])| == |multiset(source[i])|;
      }
    }

    /** `nextQuestion()`. */
    method NextQuestion() returns (q: Option<Question>, tier: int)
      requires Valid()
      modifies this
      ensures Valid()
      ensures initialSizes == old(initialSizes)
      ensures Pick(q, tier, Model()) == Next(old(Model()))
    {
      if AllEmpty(tiers) {
        return None, -1;
      }
      if consecutiveCorrect >= 2 {
        var hi := FindNextNonEmptyTier(tierIndex + 1, 1);
        if hi != -1 {
          var question := Pop(hi);
          consecutiveCorrect := 0;
          return Some(question), hi;
        }
      }
      if |tiers[tierIndex]| > 0 {
        var question := Pop(tierIndex);
        return Some(question), tierIndex;
      }
      var next := FindNextNonEmptyTier(tierIndex, -1);
      if next != -1 {
        var question := Pop(next);
        return Some(question), next;
      }
      return None, -1;
    }

    /** `this.tiers[t].pop()` together with `this.askedCounts[t]++`. */
    method Pop(t: int) returns (question: Question)
      requires Valid() && 0 <= t < |tiers| && tiers[t] != []
      modifies this
      ensures Valid()
      ensures initialSizes == old(initialSizes)
      ensures Pick(Some(question), t, Model()) == Take(old(Model()), t)
    {
      var pool := tiers[t];
      question := pool[|pool| - 1];
      tiers := tiers[t := pool[..|pool| - 1]];
      askedCounts := askedCounts[t := askedCounts[t] + 1];
    }

    /** `findNextNonEmptyTier(from, dir)`, with its two loops. */
    method FindNextNonEmptyTier(from: int, dir: int) returns (r: int)
      requires 0 <= from && (dir != 1 ==> from <= |tiers|)
      ensures r == FindNext(tiers, from, dir)
    {
      var i := from;
      while i < |tiers|
        invariant from <= i && (i > |tiers| ==> i == from)
        invariant FirstNonEmpty(tiers, i) == FirstNonEmpty(tiers, from)
      {
        if |tiers[i]| > 0 {
          return i;
        }
        i := i + 1;
      }
      if dir == 1 {
        return -1;
      }
      i := from - 1;
      while i >= 0
        invariant -1 <= i < from
        invariant LastNonEmptyBelow(tiers, i + 1) == LastNonEmptyBelow(tiers, from)
      {
        if |tiers[i]| > 0 {
          return i;
        }
        i := i - 1;
      }
      return -1;
    }

    /** `submitAnswer(tier, correct)`. */
    method SubmitAnswer(tier: int, correct: bool)
      requires Valid()
      modifies this
      ensures Valid()
      ensures initialSizes == old(initialSizes)
      ensures Model() == Submit(old(Model()), tier, correct)
    {
      if tier < 0 || tier >= |tiers| {
        return;
      }
      if correct {
        correctCounts := correctCounts[tier := correctCounts[tier] + 1];
        consecutiveCorrect := consecutiveCorrect + 1;
      } else {
        consecutiveCorrect := 0;
        var asked := askedCounts[tier];
        var correctSoFar := correctCounts[tier];
        if asked >= 3 && correctSoFar <= 1 {
          hintMode := true;
        }
      }
      EvaluateTier(tier);
    }

    /** The end-of-tier evaluation of `submitAnswer`, after the answer is recorded. */
    method EvaluateTier(tier: int)
      requires Valid() && 0 <= tier < |tiers|
      modifies this
      ensures Valid()
      ensures initialSizes == old(initialSizes)
      ensures var s := old(Model());
        Model() == if s.askedCounts[tier] >= OriginalTierSize(s, tier) then Evaluate(s, s.correctCounts[tier]) else s
    {
      var originalSize := OriginalTierSize(Model(), tier);
      if askedCounts[tier] >= originalSize {
        var correctInTier := correctCounts[tier];
        if correctInTier >= 4 {
          tierIndex := Min(|tiers| - 1, tierIndex + 1);
          failStreakForTier := failStreakForTier[tierIndex := 0];
        } else if correctInTier == 3 {
        } else {
          failStreakForTier := failStreakForTier[tierIndex := failStreakForTier[tierIndex] + 1];
          if failStreakForTier[tierIndex] >= 2 {
            hintMode := true;
          }
          tierIndex := Max(0, tierIndex - 1);
        }
      }
    }
  }

  /** `new Array(n).fill(0)` */
  function Zeros(n: nat): (r: seq<nat>)
    ensures |r| == n && forall i :: 0 <= i < n ==> r[i] == 0
  {
    seq(n, _ => 0)
  }
}
