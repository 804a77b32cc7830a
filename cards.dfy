/**
 * The card catalogue's record type and the subject filter used by the quiz
 * and flashcard screens. A card is one of three kinds, told apart by its
 * `type` tag; every kind has an id, a subject, a prompt and an answer.
 */
module Cards {
  import opened Text

  datatype Card =
    | Definition(id: string, subject: string, prompt: string, answer: string)
    | ShapeCard(id: string, subject: string, shape: string, prompt: string, answer: string)
    | Word(id: string, subject: string, prompt: string, answer: string, hint: Option<string>)
  {
    /** The card's `type` tag as the catalogue spells it. */
    function TypeTag(): string
    {
      match this
      case Definition(_, _, _, _) => "definition"
      case ShapeCard(_, _, _, _, _) => "shape"
      case Word(_, _, _, _, _) => "word"
    }
  }

  /** The subjects the catalogue lists, in display order. */
  const subjects: seq<string> :=
    ["Arithmetic", "Pre-Algebra", "Algebra", "Geometry", "Word Problems", "Memorize", "ASVAB", "Motion", "Work"]

  /** The shape cards of the catalogue (the `type: 'shape'` entries), in catalogue order. */
  const shapeCards: seq<Card> := [
    circleCard, rectangleCard, squareCard, triangleCard,
    rightTriangleCard, parallelogramCard, trapezoidCard, rhombusCard
  ]

  const circleCard := ShapeCard("shape-circle", "Geometry", "Circle", "Area of a circle", "A = \U{03C0} r\U{00B2}")
  const rectangleCard := ShapeCard("shape-rect", "Geometry", "Rectangle", "Area of a rectangle", "A = w \U{00D7} h")
  const squareCard := ShapeCard("shape-square", "Geometry", "Square", "Area of a square", "A = s\U{00B2}")
  const triangleCard := ShapeCard("shape-tri", "Geometry", "Triangle", "Area of a triangle", "A = \U{00BD} \U{00D7} base \U{00D7} height")
  const rightTriangleCard := ShapeCard("shape-right-tri", "Geometry", "Right Triangle",
    "Right triangle (Pythagorean theorem applies)", "a\U{00B2} + b\U{00B2} = c\U{00B2}")
  const parallelogramCard := ShapeCard("shape-parallelogram", "Geometry", "Parallelogram", "Area of a parallelogram",
    "A = base \U{00D7} height")
  const trapezoidCard := ShapeCard("shape-trapezoid", "Geometry", "Trapezoid", "Area of a trapezoid",
    "A = \U{00BD} \U{00D7} (b\U{2081} + b\U{2082}) \U{00D7} height")
  const rhombusCard := ShapeCard("shape-rhombus", "Geometry", "Rhombus", "Area of a rhombus",
    "A = \U{00BD} \U{00D7} d\U{2081} \U{00D7} d\U{2082} (or base \U{00D7} height)")

  /** The argument of `cardsForSubjects`: the literal `'All'` or a list of subject names. */
  datatype Selection = All | Subjects(names: seq<string>)

  /** `catalog.filter((c) => names.includes(c.subject))` */
  function FilterSubjects(catalog: seq<Card>, names: seq<string>): (r: seq<Card>)
    ensures forall c :: c in r ==> c in catalog && c.subject in names
    ensures forall c :: c in catalog && c.subject in names ==> c in r
    ensures IsSubsequence(r, catalog)
    ensures names == [] ==> r == []
    ensures forall c :: multiset(r)[c] == if c.subject in names then multiset(catalog)[c] else 0
  {
    if catalog == [] then []
    else
      assert catalog == [catalog[0]] + catalog[1..];
      if catalog[0].subject in names then [catalog[0]] + FilterSubjects(catalog[1..], names)
      else FilterSubjects(catalog[1..], names)
  }

  /**
   * `cardsForSubjects(selection)` applied to a catalogue: `'All'` returns the
   * catalogue itself, a list keeps exactly the cards whose subject it names,
   * in catalogue order.
   */
  function CardsForSubjects(catalog: seq<Card>, selection: Selection): (r: seq<Card>)
    ensures selection.All? ==> r == catalog
    ensures selection.Subjects? ==> forall c :: c in r ==> c in catalog && c.subject in selection.names
    ensures selection.Subjects? ==> forall c :: c in catalog && c.subject in selection.names ==> c in r
    ensures IsSubsequence(r, catalog)
    ensures selection == Subjects([]) ==> r == []
    ensures selection.Subjects? ==>
      forall c :: multiset(r)[c] == if c.subject in selection.names then multiset(catalog)[c] else 0
  {
    match selection
    case All => SubsequenceRefl(catalog); catalog
    case Subjects(names) => FilterSubjects(catalog, names)
  }
}
