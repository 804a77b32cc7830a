/**
 * Which geometric shape, if any, a card is about. A shape card names its
 * shape; for the other cards the shape is looked up by keyword in the
 * lower-cased prompt and answer, and only when the prompt is not a generic
 * overview and the text speaks of a measurement or asks a question.
 */
module ShapeDetect {
  import opened Text
  import opened Cards

  /** The shapes searched for, in priority order: more specific names first. */
  const shapes: seq<string> := [
    "right triangle", "square", "rectangle", "circle", "triangle", "parallelogram", "trapezoid",
    "rhombus", "pentagon", "hexagon", "ellipse", "oval", "kite", "cylinder", "cube",
    "rectangular solid", "rectangular"
  ]

  /** Whole words that mark a prompt as a generic overview. */
  const overviewWords: seq<string> := ["common", "overview", "when to use", "summary"]

  /** Whole words that show the text is about a particular measurement. */
  const contextWords: seq<string> := [
    "area", "perimeter", "volume", "diagonal", "circumference", "radius", "diameter",
    "height", "length", "width", "hypotenuse"
  ]

  /** Whole words that make a prompt a question about a quantity. */
  const questionWords: seq<string> := ["what is", "find", "calculate"]

  /**
   * The first entry of `table` that occurs in `hay` as a substring, or
   * `None` when no entry does.
   */
  function FirstMatch(hay: string, table: seq<string>): (r: Option<string>)
    ensures r.None? <==> forall k :: 0 <= k < |table| ==> !Contains(hay, table[k])
    ensures r.Some? ==> exists k :: (0 <= k < |table| && table[k] == r.value && Contains(hay, r.value) &&
      forall j :: 0 <= j < k ==> !Contains(hay, table[j]))
  {
    if table == [] then None
    else if Contains(hay, table[0]) then Some(table[0])
    else
      var rest := FirstMatch(hay, table[1..]);
      assert forall k :: 1 <= k < |table| ==> table[k] == table[1..][k - 1];
      rest
  }

  /** The text searched for shapes: lower-cased prompt, a space, lower-cased answer. */
  function Haystack(card: Card): string
  {
    Lower(card.prompt) + " " + Lower(card.answer)
  }

  /** The prompt is a generic overview. */
  predicate IsOverview(card: Card)
  {
    ContainsAnyWord(Lower(card.prompt), overviewWords)
  }

  /** Some measurement word occurs in the text, or the prompt asks for a quantity. */
  predicate HasContext(card: Card)
  {
    ContainsAnyWord(Haystack(card), contextWords) || ContainsAnyWord(Lower(card.prompt), questionWords)
  }

  /**
   * `detectShapeFromCard(card)`: a shape card gives its lower-cased shape
   * (nothing when that is empty); any other card gives the first table
   * shape in its text, provided the prompt is no overview and has context.
   */
  function DetectShapeFromCard(card: Card): (r: Option<string>)
    ensures card.ShapeCard? ==> r == if card.shape == [] then None else Some(Lower(card.shape))
    ensures !card.ShapeCard? && IsOverview(card) ==> r == None
    ensures !card.ShapeCard? && !HasContext(card) ==> r == None
    ensures !card.ShapeCard? && r.Some? ==>
      && !IsOverview(card) && HasContext(card)
      && exists k :: (0 <= k < |shapes| && shapes[k] == r.value && Contains(Haystack(card), r.value) &&
        forall j :: 0 <= j < k ==> !Contains(Haystack(card), shapes[j]))
    ensures !card.ShapeCard? && !IsOverview(card) && HasContext(card) && r.None? ==>
      forall k :: 0 <= k < |shapes| ==> !Contains(Haystack(card), shapes[k])
  {
    if card.ShapeCard? then
      var lowered := Lower(card.shape);
      if lowered == [] then None else Some(lowered)
    else if IsOverview(card) then None
    else if !HasContext(card) then None
    else FirstMatch(Haystack(card), shapes)
  }

  /** For a card other than a shape card, any detected shape is one of the table's. */
  lemma DetectedIsTableShape(card: Card)
    requires !card.ShapeCard? && DetectShapeFromCard(card).Some?
    ensures DetectShapeFromCard(card).value in shapes
  {
    var r := DetectShapeFromCard(card);
    var k :| 0 <= k < |shapes| && shapes[k] == r.value && Contains(Haystack(card), r.value);
  }

  /** A text that mentions a right triangle is detected as one, never as a plain triangle. */
  lemma RightTriangleFirst(card: Card)
    requires !card.ShapeCard? && !IsOverview(card) && HasContext(card)
    requires Contains(Haystack(card), "right triangle")
    ensures DetectShapeFromCard(card) == Some("right triangle")
  {
    var r := DetectShapeFromCard(card);
    var k :| 0 <= k < |shapes| && shapes[k] == r.value && Contains(Haystack(card), r.value) &&
      (forall j :: 0 <= j < k ==> !Contains(Haystack(card), shapes[j]));
    assert k == 0;
  }

  /** A prompt that opens with the word "Common" marks an overview, whatever shapes the text names. */
  lemma CommonPromptIgnored(card: Card)
    requires !card.ShapeCard? && |card.prompt| >= 7 && card.prompt[..7] == "Common "
    ensures DetectShapeFromCard(card) == None
  {
    var p := Lower(card.prompt);
    assert card.prompt[0] == 'C' && card.prompt[1] == 'o' && card.prompt[2] == 'm' && card.prompt[3] == 'm';
    assert card.prompt[4] == 'o' && card.prompt[5] == 'n' && card.prompt[6] == ' ';
    assert p[..6] == "common";
    assert WordAt(p, "common", 0);
    assert ContainsWord(p, overviewWords[0]);
  }

  /** The prompt of the catalogue's `shapes-overview` card. */
  const overviewPrompt := "Common ASVAB shapes and when to use them"

  /**
   * The overview card is not taken for any one of the shapes its answer
   * lists (square, rectangle, circle, triangle, ...), whatever that answer says.
   */
  lemma OverviewNotDetected(answer: string)
    ensures DetectShapeFromCard(Definition("shapes-overview", "Geometry", overviewPrompt, answer)) == None
  {
    var p := overviewPrompt;
    assert p[0] == 'C' && p[1] == 'o' && p[2] == 'm' && p[3] == 'm' && p[4] == 'o' && p[5] == 'n' && p[6] == ' ';
    assert p[..7] == "Common ";
    CommonPromptIgnored(Definition("shapes-overview", "Geometry", overviewPrompt, answer));
  }

  /** Every shape card of the catalogue is detected as its own shape name, lower-cased. */
  lemma ShapeCardsDetected()
    ensures forall k :: 0 <= k < |shapeCards| ==>
      DetectShapeFromCard(shapeCards[k]) == Some(Lower(shapeCards[k].shape))
    ensures DetectShapeFromCard(circleCard) == Some("circle")
    ensures DetectShapeFromCard(rightTriangleCard) == Some("right triangle")
  {
    forall k | 0 <= k < |shapeCards| ensures shapeCards[k].ShapeCard? && shapeCards[k].shape != [] {
    }
    assert Lower("Circle") == "circle";
    assert Lower("Right Triangle") == "right triangle";
  }
}
