/**
 * Keyword hints for word problems: the operation words of a fixed table
 * that occur in the prompt, each shown with the operation it suggests.
 */
module WordHints {
  import opened Text

  /** `wordTrapMap`: keyword and operation, in the table's insertion order. */
  const wordTrapMap: seq<(string, string)> := [
    ("sum", "Add"), ("difference", "Subtract"), ("product", "Multiply"), ("quotient", "Divide"),
    ("increased by", "Add"), ("decreased by", "Subtract"), ("of", "Multiply"), ("per", "Divide")
  ]

  /** The hint for an empty prompt. */
  const genericHint :=
    "Look for keywords indicating operations (sum, difference, product, quotient, increased by, decreased by, of, per)."

  /** The hint when no keyword of the table occurs. */
  const noMatchHint :=
    "No specific operation keywords found \U{2014} identify quantities and ask what is being asked (part, whole, rate, distance, time)."

  /** The heading of a hint that lists keywords. */
  const heading := "Look for these keywords:\n"

  /** The entries of `table` whose keyword is a substring of `lower`, in table order. */
  function MatchingEntries(lower: string, table: seq<(string, string)>): (r: seq<(string, string)>)
    ensures forall e :: e in r <==> e in table && Contains(lower, e.0)
    ensures IsSubsequence(r, table)
  {
    if table == [] then []
    else if Contains(lower, table[0].0) then [table[0]] + MatchingEntries(lower, table[1..])
    else MatchingEntries(lower, table[1..])
  }

  /** One line of a hint: the keyword in double quotes, an arrow, the operation. */
  function HintLine(e: (string, string)): string
  {
    "\"" + e.0 + "\" \U{2192} " + e.1
  }

  /** `matches.map(([k, v]) => ...)`: one hint line per entry, in order. */
  function Lines(matches: seq<(string, string)>): (r: seq<string>)
    ensures |r| == |matches|
    ensures forall k :: 0 <= k < |matches| ==> r[k] == HintLine(matches[k])
  {
    seq(|matches|, i requires 0 <= i < |matches| => HintLine(matches[i]))
  }

  /**
   * The text shown for the matched entries: the fixed fallback when there
   * are none, else the heading followed by the lines of the entries, in
   * order, separated by newlines.
   */
  function HintFromMatches(matches: seq<(string, string)>): (r: string)
    ensures matches == [] ==> r == noMatchHint
    ensures matches != [] ==> r == heading + Join(Lines(matches), "\n")
    ensures matches != [] ==> |r| >= |heading| && r[..|heading|] == heading
    ensures forall k :: 0 <= k < |matches| ==> Contains(r, HintLine(matches[k]))
  {
    if matches == [] then noMatchHint
    else
      var lines := Lines(matches);
      var body := Join(lines, "\n");
      forall k | 0 <= k < |matches| ensures Contains(heading + body, HintLine(matches[k])) {
        JoinContainsParts(lines, "\n", k);
        var i :| OccursAt(body, lines[k], i);
        assert (heading + body)[|heading| + i..|heading| + i + |lines[k]|] == body[i..i + |lines[k]|];
        assert OccursAt(heading + body, lines[k], |heading| + i);
      }
      heading + body
  }

  /** Line `k` of a hint with matches sits at `LineStart(m, k)`; the first one right after the heading. */
  lemma HintLineAt(matches: seq<(string, string)>, k: int)
    requires 0 <= k < |matches|
    ensures OccursAt(HintFromMatches(matches), Lines(matches)[k], LineStart(matches, k))
    ensures LineStart(matches, 0) == |heading|
  {
    JoinPartAt(heading, Lines(matches), "\n", k);
  }

  /** Line `k + 1` of a hint starts one character after line `k` ends. */
  lemma HintLineNext(matches: seq<(string, string)>, k: int)
    requires 0 <= k < |matches| - 1
    ensures LineStart(matches, k + 1) == LineStart(matches, k) + |Lines(matches)[k]| + 1
  {
    JoinOffsetStep(Lines(matches), "\n", k);
  }

  /** Between line `k` and line `k + 1` the hint holds a newline. */
  lemma HintNewline(matches: seq<(string, string)>, k: int)
    requires 0 <= k < |matches| - 1
    ensures OccursAt(HintFromMatches(matches), "\n", LineStart(matches, k) + |Lines(matches)[k]|)
  {
    JoinNextPart(heading, Lines(matches), "\n", k);
  }

  /** The last line of a hint with matches ends the text. */
  lemma HintLastLine(matches: seq<(string, string)>)
    requires matches != []
    ensures LineStart(matches, |matches| - 1) + |Lines(matches)[|matches| - 1]| == |HintFromMatches(matches)|
  {
    assert HintFromMatches(matches) == heading + Join(Lines(matches), "\n");
    JoinLastPart(Lines(matches), "\n");
  }

  /** Where line `k` of a hint with matches starts. */
  function LineStart(matches: seq<(string, string)>, k: int): int
    requires 0 <= k < |matches|
  {
    |heading| + JoinOffset(Lines(matches), "\n", k)
  }

  /**
   * `hintForWordProblem(prompt)`: the generic message for an empty prompt;
   * otherwise every table keyword occurring in the lower-cased prompt,
   * turned into the hint text.
   */
  method HintForWordProblem(prompt: string) returns (hint: string)
    ensures prompt == [] ==> hint == genericHint
    ensures prompt != [] ==> hint == HintFromMatches(MatchingEntries(Lower(prompt), wordTrapMap))
  {
    if prompt == [] {
      return genericHint;
    }
    var lower := Lower(prompt);
    var matches := CollectMatches(lower, wordTrapMap);
    hint := HintFromMatches(matches);
  }

  /** The `forEach` loop over the table: the entries whose keyword occurs in `lower`. */
  method CollectMatches(lower: string, table: seq<(string, string)>) returns (matches: seq<(string, string)>)
    ensures matches == MatchingEntries(lower, table)
  {
    matches := [];
    for i := 0 to |table|
      invariant matches + MatchingEntries(lower, table[i..]) == MatchingEntries(lower, table)
    {
      var (k, v) := table[i];
      assert table[i..][1..] == table[i + 1..];
      if Contains(lower, k) {
        matches := matches + [(k, v)];
      }
    }
    assert table[|table|..] == [];
  }

  /** Substring matching: a prompt mentioning a percent also matches the keyword "per". */
  lemma PerInsidePercent(prompt: string)
    requires Contains(Lower(prompt), "percent")
    ensures ("per", "Divide") in MatchingEntries(Lower(prompt), wordTrapMap)
  {
    var lower := Lower(prompt);
    var i :| OccursAt(lower, "percent", i);
    assert lower[i..i + 3] == "percent"[..3];
    assert OccursAt(lower, "per", i);
    assert ("per", "Divide") == wordTrapMap[7];
  }

  /** Matching distributes over concatenation of tables. */
  lemma {:induction false} MatchAppend(lower: string, a: seq<(string, string)>, b: seq<(string, string)>)
    ensures MatchingEntries(lower, a + b) == MatchingEntries(lower, a) + MatchingEntries(lower, b)
  {
    if a == [] {
      assert a + b == b;
    } else {
      assert (a + b)[0] == a[0] && (a + b)[1..] == a[1..] + b;
      MatchAppend(lower, a[1..], b);
    }
  }

  /** A table none of whose keywords occurs matches nothing. */
  lemma NoneMatch(lower: string, table: seq<(string, string)>)
    requires forall k :: 0 <= k < |table| ==> !Contains(lower, table[k].0)
    ensures MatchingEntries(lower, table) == []
  {
  }

  /** A text that contains "of" and none of the other keywords matches the "of" entry alone. */
  lemma OnlyOf(lower: string)
    requires !Contains(lower, "sum") && !Contains(lower, "difference") && !Contains(lower, "product")
    requires !Contains(lower, "quotient") && !Contains(lower, "increased by") && !Contains(lower, "decreased by")
    requires Contains(lower, "of") && !Contains(lower, "per")
    ensures MatchingEntries(lower, wordTrapMap) == [("of", "Multiply")]
  {
    var t := wordTrapMap;
    var front, of, per := t[..6], [t[6]], [t[7]];
    assert t == front + of + per;
    NoneMatch(lower, front);
    assert of[1..] == [] && per[1..] == [];
    assert MatchingEntries(lower, of) == of;
    assert MatchingEntries(lower, per) == [];
    MatchAppend(lower, front + of, per);
    MatchAppend(lower, front, of);
  }

  lemma LowerPercentPrompt()
    ensures Lower("What is 30% of 20?") == "what is 30% of 20?"
  {
  }

  /** Which keywords occur in the lower-cased prompt "what is 30% of 20?". */
  lemma PercentPromptKeywords(lower: string)
    requires lower == "what is 30% of 20?"
    ensures !Contains(lower, "sum") && !Contains(lower, "difference") && !Contains(lower, "product")
    ensures !Contains(lower, "quotient") && !Contains(lower, "increased by") && !Contains(lower, "decreased by")
    ensures Contains(lower, "of") && !Contains(lower, "per")
  {
    PercentPromptSumDifference(lower);
    PercentPromptProductQuotient(lower);
    PercentPromptIncreasedDecreased(lower);
    OccursContained(lower, "of", 12);
    MissingCharNotContained(lower, "per", 'p');
  }

  lemma PercentPromptSumDifference(lower: string)
    requires lower == "what is 30% of 20?"
    ensures !Contains(lower, "sum") && !Contains(lower, "difference")
  {
    MissingCharNotContained(lower, "sum", 'u');
    MissingCharNotContained(lower, "difference", 'd');
  }

  lemma PercentPromptProductQuotient(lower: string)
    requires lower == "what is 30% of 20?"
    ensures !Contains(lower, "product") && !Contains(lower, "quotient")
  {
    MissingCharNotContained(lower, "product", 'p');
    MissingCharNotContained(lower, "quotient", 'q');
  }

  lemma PercentPromptIncreasedDecreased(lower: string)
    requires lower == "what is 30% of 20?"
    ensures !Contains(lower, "increased by") && !Contains(lower, "decreased by")
  {
    MissingCharNotContained(lower, "increased by", 'c');
    MissingCharNotContained(lower, "decreased by", 'd');
  }

  /**
   * "What is 30% of 20?" matches only "of": the hint suggests multiplying
   * and says nothing about percentages.
   */
  lemma PercentOfPrompt()
    ensures MatchingEntries(Lower("What is 30% of 20?"), wordTrapMap) == [("of", "Multiply")]
    ensures !Contains(HintFromMatches([("of", "Multiply")]), "percent")
  {
    LowerPercentPrompt();
    PercentPromptKeywords(Lower("What is 30% of 20?"));
    OnlyOf(Lower("What is 30% of 20?"));
    OfHintNoPercent();
  }

  /** The hint for the "of" entry alone does not mention percentages. */
  lemma OfHintNoPercent()
    ensures !Contains(HintFromMatches([("of", "Multiply")]), "percent")
  {
    var line := HintLine(("of", "Multiply"));
    var lines := [line];
    assert Join(lines, "\n") == line;
    assert HintFromMatches([("of", "Multiply")]) == heading + line;
    NoLetterC(heading + line);
  }

  lemma NoLetterC(hint: string)
    requires hint == heading + HintLine(("of", "Multiply"))
    ensures !Contains(hint, "percent")
  {
    assert 'c' !in heading;
    assert 'c' !in HintLine(("of", "Multiply"));
    MissingCharNotContained(hint, "percent", 'c');
  }

  lemma LowerFactorsPrompt()
    ensures Lower("What are the factors of 12?") == "what are the factors of 12?"
  {
  }

  /** Which keywords occur in the lower-cased prompt "what are the factors of 12?". */
  lemma FactorsPromptKeywords(lower: string)
    requires lower == "what are the factors of 12?"
    ensures !Contains(lower, "sum") && !Contains(lower, "difference") && !Contains(lower, "product")
    ensures !Contains(lower, "quotient") && !Contains(lower, "increased by") && !Contains(lower, "decreased by")
    ensures Contains(lower, "of") && !Contains(lower, "per")
  {
    FactorsPromptSumDifference(lower);
    FactorsPromptProductQuotient(lower);
    FactorsPromptIncreasedDecreased(lower);
    FactorsPromptOfPer(lower);
  }

  lemma FactorsPromptSumDifference(lower: string)
    requires lower == "what are the factors of 12?"
    ensures !Contains(lower, "sum") && !Contains(lower, "difference")
  {
    MissingCharNotContained(lower, "sum", 'u');
    MissingCharNotContained(lower, "difference", 'd');
  }

  lemma FactorsPromptProductQuotient(lower: string)
    requires lower == "what are the factors of 12?"
    ensures !Contains(lower, "product") && !Contains(lower, "quotient")
  {
    MissingCharNotContained(lower, "product", 'p');
    MissingCharNotContained(lower, "quotient", 'q');
  }

  lemma FactorsPromptIncreasedDecreased(lower: string)
    requires lower == "what are the factors of 12?"
    ensures !Contains(lower, "increased by") && !Contains(lower, "decreased by")
  {
    MissingCharNotContained(lower, "increased by", 'i');
    MissingCharNotContained(lower, "decreased by", 'd');
  }

  lemma FactorsPromptOfPer(lower: string)
    requires lower == "what are the factors of 12?"
    ensures Contains(lower, "of") && !Contains(lower, "per")
  {
    OccursContained(lower, "of", 21);
    MissingCharNotContained(lower, "per", 'p');
  }

  /** "What are the factors of 12?" gets the multiplication hint for "of" and nothing else. */
  lemma FactorsPrompt()
    ensures MatchingEntries(Lower("What are the factors of 12?"), wordTrapMap) == [("of", "Multiply")]
  {
    LowerFactorsPrompt();
    FactorsPromptKeywords(Lower("What are the factors of 12?"));
    OnlyOf(Lower("What are the factors of 12?"));
  }
}
