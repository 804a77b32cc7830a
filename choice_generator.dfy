/**
 * Assembly of a multiple-choice question: three distractors of tagged kinds
 * around the correct answer, made distinct, topped up, forced to contain
 * the kind the tier asks for where possible, shuffled and labelled A-D.
 *
 * The numeric perturbations of the four strategies are floating-point and
 * random; they are represented by caller-supplied texts (`Draws`). Only
 * their fallbacks for answers without a number are computed here.
 */
module ChoiceGenerator {
  import opened Text

  datatype Kind = Arithmetic | Conceptual | Partial | Rounding
  {
    /** The `type` string of a distractor of this kind. */
    function Name(): string
    {
      match this
      case Arithmetic => "arithmetic"
      case Conceptual => "conceptual"
      case Partial => "partial"
      case Rounding => "rounding"
    }

    /** What the strategy of this kind appends to an answer it cannot read as a number. */
    function Suffix(): string
    {
      match this
      case Arithmetic => " (calc error)"
      case Conceptual => " (misapplied concept)"
      case Partial => " (partial)"
      case Rounding => " (rounded)"
    }
  }

  datatype Distractor = Distractor(text: string, kind: Kind)

  /** An entry of the choice pool: the correct answer, or a distractor of some kind. */
  datatype Role = Correct | Wrong(kind: Kind)

  datatype Entry = Entry(text: string, role: Role)

  /**
   * The outcomes of the random and floating-point steps: the texts the
   * numeric branches of the three initial strategy calls produce, those of
   * the successive top-up calls, that of the replacement call, and the
   * Fisher-Yates indices, `swaps[k]` being the `j` drawn when `i` is
   * `3 - k`.
   */
  datatype Draws = Draws(
    arithmetic: string, conceptual: string, tierSpecific: string,
    extras: seq<string>, replacement: string, swaps: seq<int>)

  datatype Choices = Choices(choices: seq<string>, correctIndex: int, logic: map<string, string>)

  const labels: seq<string> := ["A", "B", "C", "D"]

  /**
   * `parseNumeric` finds a number exactly when the answer holds an ASCII
   * digit; then the strategy's text is the supplied numeric one, otherwise
   * the answer with the kind's suffix.
   */
  function Strategy(answer: string, kind: Kind, numeric: string): (d: Distractor)
    ensures d.kind == kind
    ensures !HasAsciiDigit(answer) ==> d.text == answer + kind.Suffix()
  {
    Distractor(if HasAsciiDigit(answer) then numeric else answer + kind.Suffix(), kind)
  }

  /** The kind tiers 3 and above require, and the third initial candidate's kind. */
  function RequiredKind(tier: int): Kind
  {
    if tier >= 3 then Partial else Rounding
  }

  /** The three initial candidates, in push order. */
  function Candidates(answer: string, tier: int, d: Draws): (r: seq<Distractor>)
    ensures |r| == 3
    ensures r[0].kind == Arithmetic && r[1].kind == Conceptual && r[2].kind == RequiredKind(tier)
  {
    [Strategy(answer, Arithmetic, d.arithmetic), Strategy(answer, Conceptual, d.conceptual),
     Strategy(answer, RequiredKind(tier), d.tierSpecific)]
  }

  /** The texts of `ds`. */
  function TextSet(ds: seq<Distractor>): set<string>
  {
    set i | 0 <= i < |ds| :: ds[i].text
  }

  /** The `seen` set: the correct answer and the kept distractor texts. */
  function Seen(answer: string, ds: seq<Distractor>): set<string>
  {
    {answer} + TextSet(ds)
  }

  /** Distractor texts are pairwise distinct and differ from the correct answer. */
  predicate Fresh(ds: seq<Distractor>, answer: string)
  {
    && (forall i :: 0 <= i < |ds| ==> ds[i].text != answer)
    && (forall i, j :: 0 <= i < j < |ds| ==> ds[i].text != ds[j].text)
  }

  predicate HasKind(ds: seq<Distractor>, kind: Kind)
  {
    exists i :: 0 <= i < |ds| && ds[i].kind == kind
  }

  /**
   * The dedupe loop: left to right, a candidate is kept when its text is
   * not yet seen. The kept ones are fresh, come from `ds` in order, and
   * every candidate's text ends up seen.
   */
  function Dedupe(answer: string, ds: seq<Distractor>): (r: seq<Distractor>)
    ensures Fresh(r, answer)
    ensures |r| <= |ds|
    ensures forall i :: 0 <= i < |r| ==> r[i] in ds
    ensures forall i :: 0 <= i < |ds| ==> ds[i].text in Seen(answer, r)
  {
    if ds == [] then []
    else
      var prev := Dedupe(answer, ds[..|ds| - 1]);
      var d := ds[|ds| - 1];
      assert forall i :: 0 <= i < |ds| - 1 ==> ds[i] == ds[..|ds| - 1][i];
      if d.text in Seen(answer, prev) then prev
      else
        var r := prev + [d];
        assert forall i :: 0 <= i < |prev| ==> prev[i].text in TextSet(prev);
        assert forall i :: 0 <= i < |prev| ==> r[i] == prev[i];
        assert TextSet(prev) <= TextSet(r) by {
          forall t | t in TextSet(prev) ensures t in TextSet(r) {
            var i :| 0 <= i < |prev| && prev[i].text == t;
            assert r[i].text == t;
          }
        }
        assert r[|prev|].text == d.text;
        r
  }

  /**
   * The top-up loop: arithmetic variants are drawn in turn and kept when
   * unseen, until there are three distractors; `None` when the draws run
   * out first.
   */
  function TopUp(answer: string, uniq: seq<Distractor>, extras: seq<string>): (r: Option<seq<Distractor>>)
    decreases |extras|
    ensures r.None? ==> |uniq| < 3
    ensures r.Some? ==> |r.value| == if |uniq| < 3 then 3 else |uniq|
    ensures r.Some? ==> r.value[..|uniq|] == uniq
    ensures r.Some? ==> forall i :: |uniq| <= i < |r.value| ==> r.value[i].kind == Arithmetic
    ensures r.Some? && Fresh(uniq, answer) ==> Fresh(r.value, answer)
  {
    if |uniq| >= 3 then Some(uniq)
    else if extras == [] then None
    else
      var e := Strategy(answer, Arithmetic, extras[0]);
      if e.text in Seen(answer, uniq) then TopUp(answer, uniq, extras[1..])
      else
        var grown := uniq + [e];
        assert grown[..|uniq|] == uniq;
        assert Fresh(uniq, answer) ==> Fresh(grown, answer) by {
          if Fresh(uniq, answer) {
            forall i | 0 <= i < |uniq| ensures grown[i].text != e.text {
              assert uniq[i].text in TextSet(uniq);
            }
          }
        }
        var r := TopUp(answer, grown, extras[1..]);
        assert r.Some? ==> r.value[..|uniq|] == r.value[..|grown|][..|uniq|];
        r
  }

  /**
   * The required-kind step: when no distractor has the kind and the
   * replacement's text is unseen, the last distractor gives way to the
   * replacement; otherwise nothing changes.
   */
  function EnsureRequired(answer: string, uniq: seq<Distractor>, kind: Kind, replacement: Distractor): (r: seq<Distractor>)
    requires replacement.kind == kind
    ensures uniq != [] ==> |r| == |uniq|
    ensures HasKind(uniq, kind) || replacement.text in Seen(answer, uniq) ==> r == uniq
    ensures !HasKind(uniq, kind) && replacement.text !in Seen(answer, uniq) ==>
      HasKind(r, kind) && r[..|r| - 1] == (if uniq == [] then [] else uniq[..|uniq| - 1]) && r[|r| - 1] == replacement
    ensures Fresh(uniq, answer) ==> Fresh(r, answer)
  {
    if HasKind(uniq, kind) || replacement.text in Seen(answer, uniq) then uniq
    else
      var kept := if uniq == [] then [] else uniq[..|uniq| - 1];
      var r := kept + [replacement];
      assert r[|r| - 1] == replacement && r[..|r| - 1] == kept;
      assert forall i :: 0 <= i < |kept| ==> kept[i] == uniq[i] && uniq[i].text in TextSet(uniq);
      r
  }

  /** `pool`: the correct answer first, then the distractors in order. */
  function Pool(answer: string, ds: seq<Distractor>): (p: seq<Entry>)
    ensures |p| == |ds| + 1
    ensures p[0] == Entry(answer, Correct)
    ensures forall i :: 1 <= i < |p| ==> p[i] == Entry(ds[i - 1].text, Wrong(ds[i - 1].kind))
  {
    [Entry(answer, Correct)] + seq(|ds|, i requires 0 <= i < |ds| => Entry(ds[i].text, Wrong(ds[i].kind)))
  }

  /** The Fisher-Yates indices suit a pool of `n` entries: one `j` in `[0, i]` for each `i` from `n - 1` down to 1. */
  predicate ValidSwaps(n: nat, swaps: seq<int>)
  {
    && |swaps| == (if n == 0 then 0 else n - 1)
    && forall k :: 0 <= k < |swaps| ==> 0 <= swaps[k] <= n - 1 - k
  }

  function Swap<T>(s: seq<T>, i: int, j: int): (r: seq<T>)
    requires 0 <= i < |s| && 0 <= j < |s|
    ensures |r| == |s|
  {
    s[i := s[j]][j := s[i]]
  }

  /** The pool after the first `k` iterations of the Fisher-Yates loop: a permutation of it. */
  function Shuffled<T(==)>(s: seq<T>, swaps: seq<int>, k: nat): (r: seq<T>)
    requires ValidSwaps(|s|, swaps) && k <= |swaps|
    ensures |r| == |s|
    ensures multiset(r) == multiset(s)
  {
    if k == 0 then s
    else
      var prev := Shuffled(s, swaps, k - 1);
      SwapMultiset(prev, |s| - k, swaps[k - 1]);
      Swap(prev, |s| - k, swaps[k - 1])
  }

  /** `pool.map((p) => p.text)` */
  function Texts(pool: seq<Entry>): (r: seq<string>)
    ensures |r| == |pool|
    ensures forall i :: 0 <= i < |pool| ==> r[i] == pool[i].text
  {
    seq(|pool|, i requires 0 <= i < |pool| => pool[i].text)
  }

  /** `pool.findIndex((p) => p.type === 'correct')`, searching from `from` on. */
  function FindCorrect(pool: seq<Entry>, from: nat): (r: int)
    decreases |pool| - from
    ensures r == -1 <==> forall i :: from <= i < |pool| ==> !pool[i].role.Correct?
    ensures r != -1 ==>
      && from <= r < |pool| && pool[r].role.Correct?
      && forall i :: from <= i < r ==> !pool[i].role.Correct?
  {
    if from >= |pool| then -1
    else if pool[from].role.Correct? then from
    else FindCorrect(pool, from + 1)
  }

  /** `distractor_logic` over the first `|pool|` positions: label to kind name for each distractor. */
  function Logic(pool: seq<Entry>): (m: map<string, string>)
    requires |pool| <= 4
    ensures forall i :: 0 <= i < |pool| ==> (labels[i] in m <==> pool[i].role.Wrong?)
    ensures forall i :: 0 <= i < |pool| && pool[i].role.Wrong? ==> m[labels[i]] == pool[i].role.kind.Name()
    ensures forall l :: l in m ==> exists i :: 0 <= i < |pool| && labels[i] == l
  {
    if pool == [] then map[]
    else
      var n := |pool| - 1;
      var prev := Logic(pool[..n]);
      assert forall i :: 0 <= i < n ==> pool[..n][i] == pool[i];
      assert forall i :: 0 <= i < n ==> labels[i] != labels[n];
      if pool[n].role.Wrong? then prev[labels[n] := pool[n].role.kind.Name()] else prev
  }

  /** The distractors that end up in the pool, or `None` when the top-up draws run out. */
  function Final(answer: string, tier: int, d: Draws): (r: Option<seq<Distractor>>)
    ensures r.Some? ==> |r.value| == 3 && Fresh(r.value, answer)
  {
    var uniq := Dedupe(answer, Candidates(answer, tier, d));
    match TopUp(answer, uniq, d.extras)
    case None => None
    case Some(topped) =>
      var kind := RequiredKind(tier);
      Some(EnsureRequired(answer, topped, kind, Strategy(answer, kind, d.replacement)))
  }

  /** `generateChoices(correctAnswer, tier)` with the random outcomes `d`. */
  function Generate(answer: string, tier: int, d: Draws): (r: Option<Choices>)
    requires ValidSwaps(4, d.swaps)
    ensures r.Some? <==> Final(answer, tier, d).Some?
    ensures r.Some? ==> |r.value.choices| == 4
  {
    match Final(answer, tier, d)
    case None => None
    case Some(ds) => Some(Assemble(answer, ds, d.swaps))
  }

  /** The choices built from the final distractors: pool, shuffle, texts, correct index and labels. */
  function Assemble(answer: string, ds: seq<Distractor>, swaps: seq<int>): Choices
    requires |ds| == 3 && ValidSwaps(4, swaps)
  {
    var pool := Shuffled(Pool(answer, ds), swaps, 3);
    Choices(Texts(pool), FindCorrect(pool, 0), Logic(pool))
  }

  /**
   * `generateChoices(correctAnswer, tier)`, step by step, with the random
   * and floating-point outcomes supplied as `draws`.
   */
  method GenerateChoices(correctAnswer: string, tier: int, draws: Draws) returns (r: Option<Choices>)
    requires ValidSwaps(4, draws.swaps)
    ensures r == Generate(correctAnswer, tier, draws)
  {
    var final := FinalDistractors(correctAnswer, tier, draws);
    if final.None? {
      return None;
    }
    var c := AssembleChoices(correctAnswer, final.value, draws.swaps);
    r := Some(c);
  }

  /** Candidates, dedupe, top-up and the required-kind step. */
  method FinalDistractors(correctAnswer: string, tier: int, draws: Draws) returns (r: Option<seq<Distractor>>)
    ensures r == Final(correctAnswer, tier, draws)
  {
    var distractors := [Strategy(correctAnswer, Arithmetic, draws.arithmetic)];
    distractors := distractors + [Strategy(correctAnswer, Conceptual, draws.conceptual)];
    if tier >= 3 {
      distractors := distractors + [Strategy(correctAnswer, Partial, draws.tierSpecific)];
    } else {
      distractors := distractors + [Strategy(correctAnswer, Rounding, draws.tierSpecific)];
    }
    assert distractors == Candidates(correctAnswer, tier, draws);
    var uniq, seen := DedupeLoop(correctAnswer, distractors);
    var topped;
    topped, seen := TopUpLoop(correctAnswer, uniq, seen, draws.extras);
    if topped.None? {
      return None;
    }
    uniq := topped.value;
    var requiredType := RequiredKind(tier);
    if !HasKind(uniq, requiredType) {
      var replacement := Strategy(correctAnswer, requiredType, draws.replacement);
      if replacement.text !in seen {
        var removed := uniq[|uniq| - 1];
        uniq := uniq[..|uniq| - 1];
        seen := seen - {removed.text};
        uniq := uniq + [replacement];
        seen := seen + {replacement.text};
      }
    }
    r := Some(uniq);
  }

  /** The pool array, the shuffle, and the three results read off it. */
  method AssembleChoices(correctAnswer: string, uniq: seq<Distractor>, swaps: seq<int>) returns (c: Choices)
    requires |uniq| == 3 && ValidSwaps(4, swaps)
    ensures c == Assemble(correctAnswer, uniq, swaps)
  {
    var pool := ToArray(Pool(correctAnswer, uniq));
    ShuffleInPlace(pool, swaps);
    var choices := Texts(pool[..]);
    var correctIndex := FindCorrect(pool[..], 0);
    var logic := LabelPositions(pool);
    c := Choices(choices, correctIndex, logic);
  }

  /** A fresh array holding `s`. */
  method ToArray<T>(s: seq<T>) returns (a: array<T>)
    ensures fresh(a) && a[..] == s
  {
    a := new T[|s|](i requires 0 <= i < |s| => s[i]);
  }

  /** The dedupe loop, with the `seen` set it leaves behind. */
  method DedupeLoop(answer: string, distractors: seq<Distractor>) returns (uniq: seq<Distractor>, seen: set<string>)
    ensures uniq == Dedupe(answer, distractors)
    ensures seen == Seen(answer, uniq)
  {
    uniq := [];
    seen := {answer};
    for i := 0 to |distractors|
      invariant uniq == Dedupe(answer, distractors[..i])
      invariant seen == Seen(answer, uniq)
    {
      var d := distractors[i];
      assert distractors[..i + 1][..i] == distractors[..i];
      if d.text !in seen {
        SeenGrows(answer, uniq, d);
        uniq := uniq + [d];
        seen := seen + {d.text};
      }
    }
    assert distractors[..|distractors|] == distractors;
  }

  /**
   * The top-up loop: `None` when the supplied draws run out before there
   * are three distractors.
   */
  method TopUpLoop(answer: string, uniq0: seq<Distractor>, seen0: set<string>, extras: seq<string>)
    returns (r: Option<seq<Distractor>>, seen: set<string>)
    requires seen0 == Seen(answer, uniq0)
    ensures r == TopUp(answer, uniq0, extras)
    ensures r.Some? ==> seen == Seen(answer, r.value)
  {
    var uniq := uniq0;
    seen := seen0;
    var n := 0;
    while |uniq| < 3
      invariant 0 <= n <= |extras|
      invariant TopUp(answer, uniq, extras[n..]) == TopUp(answer, uniq0, extras)
      invariant seen == Seen(answer, uniq)
      decreases |extras| - n
    {
      if n == |extras| {
        return None, seen;
      }
      var extra := Strategy(answer, Arithmetic, extras[n]);
      assert extras[n..][0] == extras[n] && extras[n..][1..] == extras[n + 1..];
      if extra.text !in seen {
        SeenGrows(answer, uniq, extra);
        uniq := uniq + [extra];
        seen := seen + {extra.text};
      }
      n := n + 1;
    }
    r := Some(uniq);
  }

  /** Keeping a distractor adds its text to the seen set. */
  lemma SeenGrows(answer: string, ds: seq<Distractor>, d: Distractor)
    ensures Seen(answer, ds + [d]) == Seen(answer, ds) + {d.text}
  {
    var r := ds + [d];
    assert forall i :: 0 <= i < |ds| ==> r[i] == ds[i];
    assert r[|ds|] == d;
  }

  /** The Fisher-Yates loop, on the pool array, with the supplied indices. */
  method ShuffleInPlace<T(==)>(a: array<T>, swaps: seq<int>)
    requires ValidSwaps(a.Length, swaps)
    modifies a
    ensures a[..] == Shuffled(old(a[..]), swaps, |swaps|)
  {
    ghost var s := a[..];
    if a.Length == 0 {
      return;
    }
    var i := a.Length - 1;
    while i > 0
      invariant 0 <= i < a.Length
      invariant a[..] == Shuffled(s, swaps, a.Length - 1 - i)
    {
      var j := swaps[a.Length - 1 - i];
      a[i], a[j] := a[j], a[i];
      i := i - 1;
    }
  }

  /** The `distractor_logic` loop over the pool array. */
  method LabelPositions(pool: array<Entry>) returns (logic: map<string, string>)
    requires pool.Length <= 4
    ensures logic == Logic(pool[..])
  {
    logic := map[];
    for i := 0 to pool.Length
      invariant logic == Logic(pool[..i])
    {
      assert pool[..i + 1][..i] == pool[..i];
      if !pool[i].role.Correct? {
        logic := logic[labels[i] := pool[i].role.kind.Name()];
      }
    }
    assert pool[..pool.Length] == pool[..];
  }

  /** The texts of a list of distractors, in order: those of the pool entries after the correct one. */
  function DistractorTexts(ds: seq<Distractor>): (r: seq<string>)
    ensures |r| == |ds|
    ensures forall i :: 0 <= i < |ds| ==> r[i] == ds[i].text
  {
    Texts(Pool("", ds))[1..]
  }

  predicate Distinct<T(==)>(s: seq<T>)
  {
    forall i, j :: 0 <= i < j < |s| ==> s[i] != s[j]
  }

  /** No two entries of the pool show the same text. */
  predicate DistinctTexts(pool: seq<Entry>)
  {
    forall i, j :: 0 <= i < j < |pool| ==> pool[i].text != pool[j].text
  }

  /** A swap keeps the elements. */
  lemma SwapMultiset<T>(s: seq<T>, i: int, j: int)
    requires 0 <= i < |s| && 0 <= j < |s|
    ensures multiset(Swap(s, i, j)) == multiset(s)
  {
    if i != j {
      var t := s[i := s[j]];
      assert multiset(t) == multiset(s) - multiset{s[i]} + multiset{s[j]};
      assert t[j] == s[j];
      assert multiset(t[j := s[i]]) == multiset(t) - multiset{s[j]} + multiset{s[i]};
    }
  }

  /** A swap keeps the texts distinct. */
  lemma SwapDistinctTexts(s: seq<Entry>, i: int, j: int)
    requires 0 <= i < |s| && 0 <= j < |s| && DistinctTexts(s)
    ensures DistinctTexts(Swap(s, i, j))
  {
    var r := Swap(s, i, j);
    forall p, q | 0 <= p < q < |s| ensures r[p].text != r[q].text {
      var p' := if p == i then j else if p == j then i else p;
      var q' := if q == i then j else if q == j then i else q;
      assert r[p] == s[p'] && r[q] == s[q'];
      if p' < q' {
        assert s[p'].text != s[q'].text;
      } else {
        assert s[q'].text != s[p'].text;
      }
    }
  }

  /** Every prefix of the Fisher-Yates loop keeps the texts distinct. */
  lemma {:induction false} ShuffledDistinctTexts(s: seq<Entry>, swaps: seq<int>, k: nat)
    requires ValidSwaps(|s|, swaps) && k <= |swaps| && DistinctTexts(s)
    ensures DistinctTexts(Shuffled(s, swaps, k))
  {
    if k > 0 {
      ShuffledDistinctTexts(s, swaps, k - 1);
      SwapDistinctTexts(Shuffled(s, swaps, k - 1), |s| - k, swaps[k - 1]);
    }
  }

  /** The pool of fresh distractors shows distinct texts. */
  lemma PoolDistinct(answer: string, ds: seq<Distractor>)
    requires Fresh(ds, answer)
    ensures DistinctTexts(Pool(answer, ds))
  {
    var p := Pool(answer, ds);
    forall i, j | 0 <= i < j < |p| ensures p[i].text != p[j].text {
      assert p[j].text == ds[j - 1].text;
      if i > 0 {
        assert p[i].text == ds[i - 1].text;
        assert ds[i - 1].text != ds[j - 1].text;
      } else {
        assert ds[j - 1].text != answer;
      }
    }
  }

  /** Two sequences of distinct elements with the same members have the same multiset. */
  lemma {:induction false} DistinctMultiset<T>(a: seq<T>, b: seq<T>)
    requires Distinct(a) && Distinct(b)
    requires forall x :: x in a <==> x in b
    ensures multiset(a) == multiset(b)
  {
    DistinctCount(a);
    DistinctCount(b);
    assert forall x :: multiset(a)[x] == multiset(b)[x];
  }

  /** Each member of a sequence of distinct elements occurs once. */
  lemma {:induction false} DistinctCount<T>(a: seq<T>)
    requires Distinct(a)
    ensures forall x :: multiset(a)[x] == if x in a then 1 else 0
  {
    if a != [] {
      var rest := a[1..];
      assert Distinct(rest) by {
        forall i, j | 0 <= i < j < |rest| ensures rest[i] != rest[j] {
          assert rest[i] == a[i + 1] && rest[j] == a[j + 1];
        }
      }
      DistinctCount(rest);
      assert a == [a[0]] + rest;
      assert a[0] !in rest by {
        forall i | 0 <= i < |rest| ensures rest[i] != a[0] {
          assert rest[i] == a[i + 1];
        }
      }
    }
  }

  /**
   * `pool` holds, with distinct texts, exactly the correct answer and the
   * three fresh distractors of `ds`, in some order.
   */
  predicate PoolOf(answer: string, ds: seq<Distractor>, pool: seq<Entry>)
  {
    && |ds| == 3 && |pool| == 4 && Fresh(ds, answer) && DistinctTexts(pool)
    && Entry(answer, Correct) in pool
    && (forall k :: 0 <= k < 3 ==> Entry(ds[k].text, Wrong(ds[k].kind)) in pool)
    && (forall i :: 0 <= i < 4 && pool[i].role.Correct? ==> pool[i].text == answer)
    && (forall i :: 0 <= i < 4 && pool[i].role.Wrong? ==>
          exists k :: 0 <= k < 3 && ds[k].text == pool[i].text && ds[k].kind == pool[i].role.kind)
  }

  /** The shuffled pool of fresh distractors is a pool of them. */
  lemma ShuffledPool(answer: string, ds: seq<Distractor>, swaps: seq<int>)
    requires |ds| == 3 && Fresh(ds, answer) && ValidSwaps(4, swaps)
    ensures PoolOf(answer, ds, Shuffled(Pool(answer, ds), swaps, 3))
  {
    var p := Pool(answer, ds);
    var pool := Shuffled(p, swaps, 3);
    PoolDistinct(answer, ds);
    ShuffledDistinctTexts(p, swaps, 3);
    forall i | 0 <= i < 4
      ensures (pool[i].role.Correct? ==> pool[i].text == answer)
      ensures (pool[i].role.Wrong? ==> exists k :: 0 <= k < 3 && ds[k].text == pool[i].text && ds[k].kind == pool[i].role.kind)
    {
      assert pool[i] in multiset(p);
      var m :| 0 <= m < 4 && p[m] == pool[i];
      if m > 0 {
        assert p[m] == Entry(ds[m - 1].text, Wrong(ds[m - 1].kind));
      }
    }
    assert p[0] in multiset(pool);
    forall k | 0 <= k < 3 ensures Entry(ds[k].text, Wrong(ds[k].kind)) in pool {
      assert p[k + 1] in multiset(pool);
    }
  }

  /**
   * Whenever choices are produced: four distinct texts, the correct answer
   * at `correctIndex` and nowhere else, the multiset of the correct answer
   * and the final distractors, and `logic` labelling exactly the other
   * three positions, each with the kind of the distractor shown there.
   */
  lemma GenerateValid(answer: string, tier: int, d: Draws) returns (c: Choices, ds: seq<Distractor>)
    requires ValidSwaps(4, d.swaps) && Generate(answer, tier, d).Some?
    ensures Generate(answer, tier, d) == Some(c) && Final(answer, tier, d) == Some(ds)
    ensures |c.choices| == 4 && Distinct(c.choices)
    ensures 0 <= c.correctIndex < 4 && c.choices[c.correctIndex] == answer
    ensures forall i :: 0 <= i < |c.choices| && c.choices[i] == answer ==> i == c.correctIndex
    ensures multiset(c.choices) == multiset([answer] + DistractorTexts(ds))
    ensures forall i :: 0 <= i < 4 ==> (labels[i] in c.logic <==> i != c.correctIndex)
    ensures forall l :: l in c.logic ==> exists i :: 0 <= i < 4 && i != c.correctIndex && labels[i] == l
    ensures forall i :: 0 <= i < 4 && i != c.correctIndex ==> Shows(ds, c.choices[i], c.logic[labels[i]])
  {
    ds := Final(answer, tier, d).value;
    var pool := Shuffled(Pool(answer, ds), d.swaps, 3);
    c := Generate(answer, tier, d).value;
    assert c == Choices(Texts(pool), FindCorrect(pool, 0), Logic(pool));
    ShuffledPool(answer, ds, d.swaps);
    ChoicesMultiset(answer, ds, pool);
    PoolCorrect(answer, ds, pool);
    PoolLabels(answer, ds, pool);
  }

  /** Some distractor of `ds` has text `text` and kind name `name`. */
  predicate Shows(ds: seq<Distractor>, text: string, name: string)
  {
    exists k :: 0 <= k < |ds| && ds[k].text == text && ds[k].kind.Name() == name
  }

  /** In a pool, the correct entry is found, shows the answer, and every other entry is a distractor. */
  lemma PoolCorrect(answer: string, ds: seq<Distractor>, pool: seq<Entry>)
    requires PoolOf(answer, ds, pool)
    ensures var ci := FindCorrect(pool, 0);
      && 0 <= ci < 4 && pool[ci].text == answer
      && forall i :: 0 <= i < 4 && i != ci ==> pool[i].role.Wrong?
  {
    var ci := FindCorrect(pool, 0);
    var e :| e in pool && e == Entry(answer, Correct);
    assert ci != -1;
    forall i | 0 <= i < 4 && i != ci ensures pool[i].role.Wrong? {
      if i < ci {
        assert pool[i].text != pool[ci].text;
      } else {
        assert pool[ci].text != pool[i].text;
      }
    }
  }

  /** The labels of a pool: exactly the positions other than the correct one, each with its distractor's kind. */
  lemma PoolLabels(answer: string, ds: seq<Distractor>, pool: seq<Entry>)
    requires PoolOf(answer, ds, pool)
    requires var ci := FindCorrect(pool, 0);
      && 0 <= ci < 4 && forall i :: 0 <= i < 4 && i != ci ==> pool[i].role.Wrong?
    ensures forall i :: 0 <= i < 4 ==> (labels[i] in Logic(pool) <==> i != FindCorrect(pool, 0))
    ensures forall l :: l in Logic(pool) ==> exists i :: 0 <= i < 4 && i != FindCorrect(pool, 0) && labels[i] == l
    ensures forall i :: 0 <= i < 4 && i != FindCorrect(pool, 0) ==> Shows(ds, Texts(pool)[i], Logic(pool)[labels[i]])
  {
    var ci, m := FindCorrect(pool, 0), Logic(pool);
    forall i | 0 <= i < 4 && i != ci ensures Shows(ds, Texts(pool)[i], m[labels[i]]) {
      var k :| 0 <= k < 3 && ds[k].text == pool[i].text && ds[k].kind == pool[i].role.kind;
      assert m[labels[i]] == pool[i].role.kind.Name();
      assert Texts(pool)[i] == pool[i].text;
    }
    forall l | l in m ensures exists i :: 0 <= i < 4 && i != ci && labels[i] == l {
      var i :| 0 <= i < 4 && labels[i] == l;
      assert i != ci;
    }
  }

  /** The texts of the shuffled pool are distinct and are the correct answer and the distractor texts. */
  lemma ChoicesMultiset(answer: string, ds: seq<Distractor>, pool: seq<Entry>)
    requires PoolOf(answer, ds, pool)
    ensures Distinct(Texts(pool))
    ensures multiset(Texts(pool)) == multiset([answer] + DistractorTexts(ds))
  {
    var a, b := Texts(pool), [answer] + DistractorTexts(ds);
    assert Distinct(a) by {
      forall i, j | 0 <= i < j < 4 ensures a[i] != a[j] {
        assert pool[i].text != pool[j].text;
      }
    }
    FreshDistinct(answer, ds);
    PoolTextsInChoices(answer, ds, pool);
    ChoicesInPoolTexts(answer, ds, pool);
    DistinctMultiset(a, b);
  }

  /** Every text shown by a pool is the answer or a distractor text. */
  lemma PoolTextsInChoices(answer: string, ds: seq<Distractor>, pool: seq<Entry>)
    requires PoolOf(answer, ds, pool)
    ensures forall x :: x in Texts(pool) ==> x in [answer] + DistractorTexts(ds)
  {
    var a, b := Texts(pool), [answer] + DistractorTexts(ds);
    forall x | x in a ensures x in b {
      var i :| 0 <= i < 4 && a[i] == x;
      if pool[i].role.Wrong? {
        var k :| 0 <= k < 3 && ds[k].text == pool[i].text && ds[k].kind == pool[i].role.kind;
        assert b[k + 1] == x;
      } else {
        assert b[0] == x;
      }
    }
  }

  /** The answer and every distractor text are shown by a pool. */
  lemma ChoicesInPoolTexts(answer: string, ds: seq<Distractor>, pool: seq<Entry>)
    requires PoolOf(answer, ds, pool)
    ensures forall x :: x in [answer] + DistractorTexts(ds) ==> x in Texts(pool)
  {
    var a, b := Texts(pool), [answer] + DistractorTexts(ds);
    forall x | x in b ensures x in a {
      var j :| 0 <= j < 4 && b[j] == x;
      var e := if j == 0 then Entry(answer, Correct) else Entry(ds[j - 1].text, Wrong(ds[j - 1].kind));
      assert e in pool;
      var i :| 0 <= i < 4 && pool[i] == e;
      assert a[i] == x;
    }
  }

  /** The correct answer followed by fresh distractor texts has no repetition. */
  lemma FreshDistinct(answer: string, ds: seq<Distractor>)
    requires Fresh(ds, answer)
    ensures Distinct([answer] + DistractorTexts(ds))
  {
    var b := [answer] + DistractorTexts(ds);
    forall i, j | 0 <= i < j < |b| ensures b[i] != b[j] {
      assert b[j] == ds[j - 1].text;
      if i > 0 {
        assert b[i] == ds[i - 1].text;
        assert ds[i - 1].text != ds[j - 1].text;
      } else {
        assert ds[j - 1].text != answer;
      }
    }
  }

  /** A fresh list of candidates survives the dedupe loop unchanged. */
  lemma {:induction false} DedupeFresh(answer: string, ds: seq<Distractor>)
    requires Fresh(ds, answer)
    ensures Dedupe(answer, ds) == ds
  {
    if ds != [] {
      var init, d := ds[..|ds| - 1], ds[|ds| - 1];
      FreshInit(ds, answer);
      DedupeFresh(answer, init);
      assert Dedupe(answer, ds) == init + [d];
      assert init + [d] == ds;
    }
  }

  /** Dropping the last distractor of a fresh list leaves a fresh list that does not show its text. */
  lemma FreshInit(ds: seq<Distractor>, answer: string)
    requires Fresh(ds, answer) && ds != []
    ensures Fresh(ds[..|ds| - 1], answer)
    ensures ds[|ds| - 1].text !in Seen(answer, ds[..|ds| - 1])
  {
    var init, d := ds[..|ds| - 1], ds[|ds| - 1];
    assert forall i :: 0 <= i < |init| ==> init[i] == ds[i];
    forall i | 0 <= i < |init| ensures init[i].text != d.text {
      assert ds[i].text != ds[|ds| - 1].text;
    }
  }

  /** Appending two different suffixes, or none, to the same answer gives different texts. */
  lemma SuffixesDiffer(answer: string, k1: Kind, k2: Kind)
    ensures answer + k1.Suffix() != answer
    ensures k1 != k2 ==> answer + k1.Suffix() != answer + k2.Suffix()
  {
    var n := |answer|;
    assert (answer + k1.Suffix())[n + 2] == k1.Suffix()[2];
    assert (answer + k2.Suffix())[n + 2] == k2.Suffix()[2];
  }

  /**
   * An answer without a digit gets exactly itself and its three suffixed
   * variants, the third one depending on the tier, and the required kind
   * is one of the labelled kinds.
   */
  lemma NonNumericChoices(answer: string, tier: int, d: Draws)
    requires ValidSwaps(4, d.swaps) && !HasAsciiDigit(answer)
    ensures Generate(answer, tier, d).Some?
    ensures multiset(Generate(answer, tier, d).value.choices) ==
      multiset{answer, answer + Arithmetic.Suffix(), answer + Conceptual.Suffix(), answer + RequiredKind(tier).Suffix()}
    ensures exists i :: (0 <= i < 4 && labels[i] in Generate(answer, tier, d).value.logic &&
      Generate(answer, tier, d).value.logic[labels[i]] == RequiredKind(tier).Name())
  {
    var cands := NonNumericFinal(answer, tier, d);
    var c, ds := GenerateValid(answer, tier, d);
    assert ds == cands;
    var t := DistractorTexts(cands);
    MultisetConsThree(answer, t);
    var third := answer + RequiredKind(tier).Suffix();
    assert third in multiset(c.choices);
    var j :| 0 <= j < 4 && c.choices[j] == third;
    SuffixesDiffer(answer, RequiredKind(tier), Arithmetic);
    SuffixesDiffer(answer, RequiredKind(tier), Conceptual);
    assert j != c.correctIndex;
    assert Shows(ds, c.choices[j], c.logic[labels[j]]);
    var k :| 0 <= k < 3 && cands[k].text == c.choices[j] && cands[k].kind.Name() == c.logic[labels[j]];
    assert k == 2;
  }

  /** The elements of an element followed by three more. */
  lemma MultisetConsThree<T>(a: T, t: seq<T>)
    requires |t| == 3
    ensures multiset([a] + t) == multiset{a, t[0], t[1], t[2]}
  {
    assert [a] + t == [a, t[0], t[1], t[2]];
  }

  /** For an answer without a digit the final distractors are the three fallback candidates. */
  lemma NonNumericFinal(answer: string, tier: int, d: Draws) returns (cands: seq<Distractor>)
    requires !HasAsciiDigit(answer)
    ensures Final(answer, tier, d) == Some(cands)
    ensures cands == Candidates(answer, tier, d)
    ensures cands[0].text == answer + Arithmetic.Suffix()
    ensures cands[1].text == answer + Conceptual.Suffix()
    ensures cands[2].text == answer + RequiredKind(tier).Suffix()
  {
    cands := Candidates(answer, tier, d);
    SuffixesDiffer(answer, Arithmetic, Conceptual);
    SuffixesDiffer(answer, Arithmetic, RequiredKind(tier));
    SuffixesDiffer(answer, Conceptual, RequiredKind(tier));
    SuffixesDiffer(answer, RequiredKind(tier), Arithmetic);
    SuffixesDiffer(answer, Conceptual, Arithmetic);
    assert Fresh(cands, answer);
    DedupeFresh(answer, cands);
    assert cands[2].kind == RequiredKind(tier);
    assert HasKind(cands, RequiredKind(tier));
  }
}
