/**
 * The variable letters drawn on a shape preview: which dimensions of the
 * detected shape get a label. Only a circle looks at the text, to choose
 * between radius and diameter.
 */
module ShapeLabels {
  import opened Text
  import opened Cards
  import opened ShapeDetect

  /** The text mentions a radius-like measure (`/radius|circumference|diameter/`). */
  predicate ShowRadius(card: Card)
  {
    ContainsAny(Haystack(card), ["radius", "circumference", "diameter"])
  }

  /** The text mentions a diameter-like measure (`/diameter|diagonal/`). */
  predicate ShowDiameter(card: Card)
  {
    ContainsAny(Haystack(card), ["diameter", "diagonal"])
  }

  /** A circle's labels: `r` and `d` as the text asks, and `r` when it asks for neither. */
  function CircleLabels(showRadius: bool, showDiameter: bool): (r: seq<string>)
    ensures r != []
    ensures "r" in r <==> showRadius || !showDiameter
    ensures "d" in r <==> showDiameter
    ensures forall k :: 0 <= k < |r| ==> r[k] in {"r", "d"}
  {
    if showRadius && showDiameter then ["r", "d"]
    else if showRadius then ["r"]
    else if showDiameter then ["d"]
    else ["r"]
  }

  /** The letters of each row of the label table. */
  function RowLabels(row: int, showRadius: bool, showDiameter: bool): seq<string>
  {
    match row
    case 0 => CircleLabels(showRadius, showDiameter)
    case 1 => ["l", "w"]
    case 2 => ["s"]
    case 3 => ["b", "h"]
    case 4 => ["a", "b", "c"]
    case 5 => ["b", "h"]
    case 6 => ["b\U{2081}", "b\U{2082}", "h"]
    case 7 => ["d\U{2081}", "d\U{2082}"]
    case 8 => ["s"]
    case 9 => ["s"]
    case 10 => ["a", "b"]
    case 11 => ["r", "h"]
    case 12 => ["d\U{2081}", "d\U{2082}"]
    case 13 => ["s"]
    case 14 => ["l", "w", "h"]
    case _ => []
  }

  /** The labels of a shape name: its row's letters, none for a name the table does not list. */
  function LabelsFor(shape: string, showRadius: bool, showDiameter: bool): seq<string>
  {
    RowLabels(TableRow(shape), showRadius, showDiameter)
  }

  /** The labels of a card: none when no shape is detected, else the table entry of its shape. */
  function ShapeLabelsOf(card: Card): (r: seq<string>)
    ensures DetectShapeFromCard(card).None? ==> r == []
    ensures |r| <= 3
  {
    match DetectShapeFromCard(card)
    case None => []
    case Some(shape) => LabelsFor(shape, ShowRadius(card), ShowDiameter(card))
  }

  /** The shape names longer than "rectangular" that have their own entry do not contain it. */
  lemma LongNamesNotRectangular()
    ensures !Contains("right triangle", "rectangular")
    ensures !Contains("right-triangle", "rectangular")
    ensures !Contains("righttriangle", "rectangular")
    ensures !Contains("parallelogram", "rectangular")
  {
    MissingCharNotContained("right triangle", "rectangular", 'c');
    MissingCharNotContained("right-triangle", "rectangular", 'c');
    MissingCharNotContained("righttriangle", "rectangular", 'c');
    MissingCharNotContained("parallelogram", "rectangular", 'c');
  }

  /** The names the table compares against are pairwise different. */
  lemma NamesDistinct()
    ensures "circle" != "square"
    ensures "rectangle" != "trapezoid"
    ensures "triangle" != "pentagon" && "triangle" != "cylinder" && "pentagon" != "cylinder"
    ensures "rhombus" != "diamond" && "rhombus" != "hexagon" && "rhombus" != "ellipse"
    ensures "diamond" != "hexagon" && "diamond" != "ellipse" && "hexagon" != "ellipse"
    ensures "oval" != "kite" && "oval" != "cube" && "kite" != "cube"
    ensures "righttriangle" != "parallelogram" && "right triangle" != "right-triangle"
  {
    assert "circle"[0] != "square"[0];
    assert "rectangle"[0] != "trapezoid"[0];
    assert "triangle"[0] != "pentagon"[0] && "triangle"[0] != "cylinder"[0] && "pentagon"[0] != "cylinder"[0];
    assert "rhombus"[0] != "diamond"[0] && "rhombus"[0] != "hexagon"[0] && "rhombus"[0] != "ellipse"[0];
    assert "diamond"[0] != "hexagon"[0] && "diamond"[0] != "ellipse"[0] && "hexagon"[0] != "ellipse"[0];
    assert "oval"[0] != "kite"[0] && "oval"[0] != "cube"[0] && "kite"[0] != "cube"[0];
    assert "righttriangle"[0] != "parallelogram"[0] && "right triangle"[5] != "right-triangle"[5];
  }

  /** The position of a shape name in the label table, -1 for a name it does not list. */
  function TableRow(shape: string): (row: int)
    ensures -1 <= row <= 14
  {
    if shape == "circle" then 0
    else if shape == "rectangle" then 1
    else if shape == "square" then 2
    else if shape == "triangle" then 3
    else if shape == "right triangle" || shape == "right-triangle" || shape == "righttriangle" then 4
    else if shape == "parallelogram" then 5
    else if shape == "trapezoid" then 6
    else if shape == "rhombus" || shape == "diamond" then 7
    else if shape == "pentagon" then 8
    else if shape == "hexagon" then 9
    else if shape == "ellipse" || shape == "oval" then 10
    else if shape == "cylinder" then 11
    else if shape == "kite" then 12
    else if shape == "cube" then 13
    else if Contains(shape, "rectangular") || shape == "rectangular solid" || shape == "rectangular-solid" then 14
    else -1
  }

  /** Each test of `getShapeLabels` holds exactly when the name sits in the corresponding row. */
  lemma RowTests(shape: string)
    ensures shape == "circle" <==> TableRow(shape) == 0
    ensures shape == "rectangle" <==> TableRow(shape) == 1
    ensures shape == "square" <==> TableRow(shape) == 2
    ensures shape == "triangle" <==> TableRow(shape) == 3
    ensures (shape == "right triangle" || shape == "right-triangle" || shape == "righttriangle") <==> TableRow(shape) == 4
    ensures shape == "parallelogram" <==> TableRow(shape) == 5
    ensures shape == "trapezoid" <==> TableRow(shape) == 6
    ensures (shape == "rhombus" || shape == "diamond") <==> TableRow(shape) == 7
    ensures shape == "pentagon" <==> TableRow(shape) == 8
    ensures shape == "hexagon" <==> TableRow(shape) == 9
    ensures (shape == "ellipse" || shape == "oval") <==> TableRow(shape) == 10
    ensures shape == "cylinder" <==> TableRow(shape) == 11
    ensures shape == "kite" <==> TableRow(shape) == 12
    ensures shape == "cube" <==> TableRow(shape) == 13
    ensures (Contains(shape, "rectangular") || shape == "rectangular solid" || shape == "rectangular-solid") <==> TableRow(shape) == 14
  {
    LongNamesNotRectangular();
    NamesDistinct();
  }

  /** The letters the blocks of rows `lo` to `hi` add for `shape`: its row's letters when the row is among them. */
  function RowsIn(shape: string, lo: int, hi: int, showRadius: bool, showDiameter: bool): seq<string>
  {
    if lo <= TableRow(shape) <= hi then LabelsFor(shape, showRadius, showDiameter) else []
  }

  /**
   * `getShapeLabels(card)`: a run of independent `if` blocks, each pushing
   * the letters of one shape name (here in three groups of five blocks).
   * Its result is the table entry of the detected shape, so in particular
   * at most one block adds letters.
   */
  method GetShapeLabels(card: Card) returns (labels: seq<string>)
    ensures labels == ShapeLabelsOf(card)
  {
    var detected := DetectShapeFromCard(card);
    if detected.None? {
      return [];
    }
    var shape := detected.value;
    var hay := Haystack(card);
    var showRadius := ContainsAny(hay, ["radius", "circumference", "diameter"]);
    var showDiameter := ContainsAny(hay, ["diameter", "diagonal"]);
    labels := [];
    labels := FirstBlocks(shape, showRadius, showDiameter, labels);
    labels := MiddleBlocks(shape, labels);
    labels := LastBlocks(shape, labels);
    RowsSplit(shape, showRadius, showDiameter);
  }

  /** The three groups of blocks together give the row's letters: at most one group adds any. */
  lemma RowsSplit(shape: string, showRadius: bool, showDiameter: bool)
    ensures [] + RowsIn(shape, 0, 4, showRadius, showDiameter) + RowsIn(shape, 5, 9, false, false)
      + RowsIn(shape, 10, 14, false, false) == LabelsFor(shape, showRadius, showDiameter)
  {
    var row := TableRow(shape);
    var a, b, c := RowsIn(shape, 0, 4, showRadius, showDiameter), RowsIn(shape, 5, 9, false, false),
      RowsIn(shape, 10, 14, false, false);
    if row < 0 {
      OneOfThree(a, b, c, []);
    } else if row <= 4 {
      OneOfThree(a, b, c, a);
    } else if row <= 9 {
      OneOfThree(a, b, c, b);
    } else {
      OneOfThree(a, b, c, c);
    }
  }

  lemma OneOfThree<T>(a: seq<T>, b: seq<T>, c: seq<T>, x: seq<T>)
    requires (a == x && b == [] && c == []) || (a == [] && b == x && c == []) || (a == [] && b == [] && c == x)
    ensures [] + a + b + c == x
  {
  }

  /** The blocks for circle, rectangle, square, triangle and right triangle. */
  method FirstBlocks(shape: string, showRadius: bool, showDiameter: bool, labels0: seq<string>) returns (labels: seq<string>)
    ensures labels == labels0 + RowsIn(shape, 0, 4, showRadius, showDiameter)
  {
    RowTests(shape);
    labels := labels0;
    if shape == "circle" {
      if showRadius { labels := labels + ["r"]; }
      if showDiameter { labels := labels + ["d"]; }
      if !showRadius && !showDiameter { labels := labels + ["r"]; }
      assert labels == labels0 + CircleLabels(showRadius, showDiameter);
    }
    if shape == "rectangle" {
      labels := labels + ["l", "w"];
    }
    if shape == "square" {
      labels := labels + ["s"];
    }
    if shape == "triangle" {
      labels := labels + ["b", "h"];
    }
    if shape == "right triangle" || shape == "right-triangle" || shape == "righttriangle" {
      labels := labels + ["a", "b", "c"];
    }
  }

  /** The blocks for parallelogram, trapezoid, rhombus, pentagon and hexagon. */
  method MiddleBlocks(shape: string, labels0: seq<string>) returns (labels: seq<string>)
    ensures labels == labels0 + RowsIn(shape, 5, 9, false, false)
  {
    RowTests(shape);
    labels := labels0;
    if shape == "parallelogram" {
      labels := labels + ["b", "h"];
    }
    if shape == "trapezoid" {
      labels := labels + ["b\U{2081}", "b\U{2082}", "h"];
    }
    if shape == "rhombus" || shape == "diamond" {
      labels := labels + ["d\U{2081}", "d\U{2082}"];
    }
    if shape == "pentagon" {
      labels := labels + ["s"];
    }
    if shape == "hexagon" {
      labels := labels + ["s"];
    }
  }

  /** The blocks for ellipse, cylinder, kite, cube and rectangular solid. */
  method LastBlocks(shape: string, labels0: seq<string>) returns (labels: seq<string>)
    ensures labels == labels0 + RowsIn(shape, 10, 14, false, false)
  {
    RowTests(shape);
    labels := labels0;
    if shape == "ellipse" || shape == "oval" {
      labels := labels + ["a", "b"];
    }
    if shape == "cylinder" {
      labels := labels + ["r", "h"];
    }
    if shape == "kite" {
      labels := labels + ["d\U{2081}", "d\U{2082}"];
    }
    if shape == "cube" {
      labels := labels + ["s"];
    }
    if Contains(shape, "rectangular") || shape == "rectangular solid" || shape == "rectangular-solid" {
      labels := labels + ["l", "w", "h"];
    }
  }

  /** A detected circle always gets a label: `r` unless only a diameter is mentioned, `d` when one is. */
  lemma CircleNeverEmpty(card: Card)
    requires DetectShapeFromCard(card) == Some("circle")
    ensures ShapeLabelsOf(card) != []
    ensures "r" in ShapeLabelsOf(card) <==> ShowRadius(card) || !ShowDiameter(card)
    ensures "d" in ShapeLabelsOf(card) <==> ShowDiameter(card)
  {
  }

  /** Any shape name containing "rectangular" is labelled as a rectangular solid. */
  lemma RectangularSolid(shape: string, showRadius: bool, showDiameter: bool)
    requires Contains(shape, "rectangular")
    ensures LabelsFor(shape, showRadius, showDiameter) == ["l", "w", "h"]
  {
    RowTests(shape);
  }

  /** The names outside the table get no labels. */
  lemma UnlistedShape(shape: string, showRadius: bool, showDiameter: bool)
    requires shape !in {"circle", "rectangle", "square", "triangle", "right triangle", "right-triangle"}
    requires shape !in {"righttriangle", "parallelogram", "trapezoid", "rhombus", "diamond", "pentagon"}
    requires shape !in {"hexagon", "ellipse", "oval", "cylinder", "kite", "cube", "rectangular-solid"}
    requires !Contains(shape, "rectangular")
    ensures LabelsFor(shape, showRadius, showDiameter) == []
  {
    RowTests(shape);
  }

  /** Only a circle's labels depend on the text. */
  lemma OnlyCircleReadsText(shape: string, showRadius: bool, showDiameter: bool)
    requires shape != "circle"
    ensures LabelsFor(shape, showRadius, showDiameter) == LabelsFor(shape, false, false)
  {
  }

  /** A shape card other than a circle gets the row of its lower-cased shape name, whatever its text. */
  lemma ShapeCardRow(card: Card, name: string)
    requires card.ShapeCard? && Lower(card.shape) == name && name != [] && name != "circle"
    ensures ShapeLabelsOf(card) == RowLabels(TableRow(name), false, false)
  {
    RowTests(name);
  }

  /**
   * Each shape card of the catalogue gets the letters of its shape: the
   * circle card, whose text mentions neither radius nor diameter, gets `r`.
   */
  lemma ShapeCardLabels()
    ensures ShapeLabelsOf(circleCard) == ["r"]
    ensures ShapeLabelsOf(rectangleCard) == ["l", "w"]
    ensures ShapeLabelsOf(squareCard) == ["s"]
    ensures ShapeLabelsOf(triangleCard) == ["b", "h"]
    ensures ShapeLabelsOf(rightTriangleCard) == ["a", "b", "c"]
    ensures ShapeLabelsOf(parallelogramCard) == ["b", "h"]
    ensures ShapeLabelsOf(trapezoidCard) == ["b\U{2081}", "b\U{2082}", "h"]
    ensures ShapeLabelsOf(rhombusCard) == ["d\U{2081}", "d\U{2082}"]
  {
    CircleCardLabels();
    LowerNames();
    ShapeCardRow(rectangleCard, "rectangle");
    RowTests("rectangle");
    ShapeCardRow(squareCard, "square");
    RowTests("square");
    ShapeCardRow(triangleCard, "triangle");
    RowTests("triangle");
    ShapeCardRow(rightTriangleCard, "right triangle");
    RowTests("right triangle");
    ShapeCardRow(parallelogramCard, "parallelogram");
    RowTests("parallelogram");
    ShapeCardRow(trapezoidCard, "trapezoid");
    RowTests("trapezoid");
    ShapeCardRow(rhombusCard, "rhombus");
    RowTests("rhombus");
  }

  /** The shape names of the catalogue's shape cards, lower-cased. */
  lemma LowerNames()
    ensures Lower("Rectangle") == "rectangle" && Lower("Square") == "square"
    ensures Lower("Triangle") == "triangle" && Lower("Right Triangle") == "right triangle"
    ensures Lower("Parallelogram") == "parallelogram" && Lower("Trapezoid") == "trapezoid"
    ensures Lower("Rhombus") == "rhombus"
  {
  }

  /** The catalogue's circle card mentions neither radius nor diameter, so it is labelled `r`. */
  lemma CircleCardLabels()
    ensures ShapeLabelsOf(circleCard) == ["r"]
  {
    ShapeCardsDetected();
    CircleCardText();
    RowTests("circle");
  }

  /** A text without the letters u and d names no radius, circumference, diameter or diagonal. */
  lemma NoMeasureLetters(card: Card)
    requires 'u' !in Lower(card.prompt) && 'd' !in Lower(card.prompt)
    requires 'u' !in Lower(card.answer) && 'd' !in Lower(card.answer)
    ensures !ShowRadius(card) && !ShowDiameter(card)
  {
    var hay := Haystack(card);
    assert 'u' !in hay && 'd' !in hay;
    MissingCharNotContained(hay, "radius", 'u');
    MissingCharNotContained(hay, "circumference", 'u');
    MissingCharNotContained(hay, "diameter", 'd');
    MissingCharNotContained(hay, "diagonal", 'd');
  }

  /** "Area of a circle" and "A = π r²" name no radius, circumference, diameter or diagonal. */
  lemma CircleCardText()
    ensures !ShowRadius(circleCard) && !ShowDiameter(circleCard)
  {
    CirclePromptLetters();
    CircleAnswerLetters();
    NoMeasureLetters(circleCard);
  }

  lemma CirclePromptLetters()
    ensures 'u' !in Lower(circleCard.prompt) && 'd' !in Lower(circleCard.prompt)
  {
    assert Lower(circleCard.prompt) == "area of a circle";
  }

  lemma CircleAnswerLetters()
    ensures 'u' !in Lower(circleCard.answer) && 'd' !in Lower(circleCard.answer)
  {
    assert Lower(circleCard.answer) == "a = \U{03C0} r\U{00B2}";
  }
}
