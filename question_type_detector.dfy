/**
 * Classifier of a source question: lower-cases the text, counts keyword hits in seven fixed
 * lists, and picks a category with a priority-ordered decision chain.
 */
module QuestionTypeDetector {

  import opened Strings
  import Seqs

  datatype QuestionType =
    | GeometryWithDiagram
    | Algebra
    | Graph
    | Table
    | Fractions
    | Exponents
    | Equations
    | Percentage
    | NumberOperations
    | Mixed

  datatype QuestionTypeAnalysis = QuestionTypeAnalysis(
    qtype: QuestionType,
    hasVisual: bool,
    concept: string,
    keywords: seq<string>)

  const VisualWords: seq<string> := ["diagram", "graph", "table", "chart", "figure", "shown"]

  const GeometryKeywords: seq<string> := [
    "triangle", "circle", "semicircle", "rectangle", "square", "angle", "degrees",
    "perimeter", "area", "volume", "diameter", "radius", "inscribed", "circumscribed",
    "parallel", "perpendicular", "congruent", "similar", "polygon", "quadrilateral"]

  const AlgebraKeywords: seq<string> := [
    "solve", "equation", "variable", "x =", "y =", "linear", "quadratic",
    "expression", "simplify", "factor", "expand", "substitute"]

  const GraphKeywords: seq<string> := [
    "graph", "plot", "coordinate", "axis", "axes", "slope", "intercept",
    "line", "curve", "point", "ordered pair"]

  const TableKeywords: seq<string> := [
    "table", "chart", "data", "frequency", "mean", "median", "mode",
    "statistics", "probability"]

  const FractionKeywords: seq<string> := ["fraction", "/", "numerator", "denominator", "divide", "quotient"]

  const ExponentKeywords: seq<string> := ["exponent", "power", "squared", "cubed", "^", "raised to"]

  const PercentageKeywords: seq<string> := ["percent", "%", "percentage", "discount", "tax", "interest"]

  /** `keywords.filter(k => text.includes(k))`. */
  function Hits(keywords: seq<string>, text: string): (r: seq<string>)
    ensures forall k :: k in r <==> k in keywords && Contains(text, k)
  {
    Seqs.Filter(k => Contains(text, k), keywords)
  }

  /** The "has visual" flag: an attached image, or a visual-reference word in the lower-cased text. */
  function HasVisual(lower: string, hasImage: bool): bool
  {
    hasImage
    || Contains(lower, "diagram")
    || Contains(lower, "graph")
    || Contains(lower, "table")
    || Contains(lower, "chart")
    || Contains(lower, "figure")
    || Contains(lower, "shown")
  }

  predicate NoDuplicates(xs: seq<string>) {
    forall i, j :: 0 <= i < j < |xs| ==> xs[i] != xs[j]
  }

  /** `[...new Set(xs)]`: the first occurrence of each element, in order. */
  function Dedup(xs: seq<string>): (r: seq<string>)
    ensures forall x :: x in r <==> x in xs
    ensures NoDuplicates(r)
    decreases |xs|
  {
    if xs == [] then []
    else
      var rest := Dedup(xs[..|xs| - 1]);
      var last := xs[|xs| - 1];
      assert xs == xs[..|xs| - 1] + [last];
      if last in rest then rest else rest + [last]
  }

  /** The keyword list that belongs to a category (none for the catch-all). */
  function CategoryKeywords(t: QuestionType): seq<string>
  {
    match t
    case GeometryWithDiagram => GeometryKeywords
    case Algebra => AlgebraKeywords
    case Graph => GraphKeywords
    case Table => TableKeywords
    case Fractions => FractionKeywords
    case Exponents => ExponentKeywords
    case Percentage => PercentageKeywords
    case Equations => []
    case NumberOperations => []
    case Mixed => []
  }

  /** How many keywords of each list the text contains. */
  datatype Counts = Counts(
    geometry: nat, algebra: nat, graph: nat, table: nat,
    fraction: nat, exponent: nat, percentage: nat)

  function HitCounts(lower: string): Counts
  {
    Counts(
      |Hits(GeometryKeywords, lower)|, |Hits(AlgebraKeywords, lower)|,
      |Hits(GraphKeywords, lower)|, |Hits(TableKeywords, lower)|,
      |Hits(FractionKeywords, lower)|, |Hits(ExponentKeywords, lower)|,
      |Hits(PercentageKeywords, lower)|)
  }

  /** The priority-ordered decision chain: a category and its concept label. */
  function Category(hasVisual: bool, c: Counts): (QuestionType, string)
  {
    if hasVisual && c.geometry > 0 then (GeometryWithDiagram, "geometry with visual diagrams")
    else if c.graph > 0 then (Graph, "graph analysis")
    else if c.table > 0 then (Table, "data analysis")
    else if c.geometry > 2 then (GeometryWithDiagram, "geometry")
    else if c.algebra > 1 then (Algebra, "algebraic equations")
    else if c.fraction > 1 then (Fractions, "fraction operations")
    else if c.exponent > 0 then (Exponents, "exponent operations")
    else if c.percentage > 0 then (Percentage, "percentage calculations")
    else (Mixed, "general mathematics")
  }

  /** `detectQuestionType(sourceQuestion, hasImage)`: the decision chain picks a category and its
    * concept; the keywords reported are that category's hits (both geometry branches report the
    * geometry hits, the catch-all none). */
  function DetectQuestionType(sourceQuestion: string, hasImage: bool): (r: QuestionTypeAnalysis)
    ensures r.hasVisual <==> hasImage || exists w :: w in VisualWords && Contains(Lower(sourceQuestion), w)
    ensures NoDuplicates(r.keywords)
    ensures forall k :: k in r.keywords <==> k in CategoryKeywords(r.qtype) && Contains(Lower(sourceQuestion), k)
  {
    var lower := Lower(sourceQuestion);
    var hasVisual := HasVisual(lower, hasImage);
    HasVisualRule(lower, hasImage);
    var (t, concept) := Category(hasVisual, HitCounts(lower));
    QuestionTypeAnalysis(t, hasVisual, concept, Dedup(Hits(CategoryKeywords(t), lower)))
  }

  // ---- properties ------------------------------------------------------------------------

  /** The visual flag: set by an attached image or by any visual-reference word. */
  lemma HasVisualRule(lower: string, hasImage: bool)
    ensures HasVisual(lower, hasImage) <==> hasImage || exists w :: w in VisualWords && Contains(lower, w)
  {
    if exists w :: w in VisualWords && Contains(lower, w) {
      var w :| w in VisualWords && Contains(lower, w);
      assert w == "diagram" || w == "graph" || w == "table" || w == "chart" || w == "figure" || w == "shown";
    }
    if HasVisual(lower, hasImage) && !hasImage {
      var w := if Contains(lower, "diagram") then "diagram"
        else if Contains(lower, "graph") then "graph"
        else if Contains(lower, "table") then "table"
        else if Contains(lower, "chart") then "chart"
        else if Contains(lower, "figure") then "figure"
        else "shown";
      assert w in VisualWords && Contains(lower, w);
    }
  }

  /** The text contains no keyword of any of the seven lists. */
  predicate MatchesNoList(lower: string) {
    && (forall k :: k in GeometryKeywords ==> !Contains(lower, k))
    && (forall k :: k in AlgebraKeywords ==> !Contains(lower, k))
    && (forall k :: k in GraphKeywords ==> !Contains(lower, k))
    && (forall k :: k in TableKeywords ==> !Contains(lower, k))
    && (forall k :: k in FractionKeywords ==> !Contains(lower, k))
    && (forall k :: k in ExponentKeywords ==> !Contains(lower, k))
    && (forall k :: k in PercentageKeywords ==> !Contains(lower, k))
  }

  /** Text matching no keyword list falls through to the generic category with no keywords. */
  lemma NoMatchIsMixed(q: string, hasImage: bool)
    requires MatchesNoList(Lower(q))
    ensures DetectQuestionType(q, hasImage).qtype == Mixed
    ensures DetectQuestionType(q, hasImage).concept == "general mathematics"
    ensures DetectQuestionType(q, hasImage).keywords == []
  {
    NoHitCounts(Lower(q));
    MixedWithoutHits(q, hasImage);
  }

  lemma MixedWithoutHits(q: string, hasImage: bool)
    requires HitCounts(Lower(q)) == Counts(0, 0, 0, 0, 0, 0, 0)
    ensures DetectQuestionType(q, hasImage).qtype == Mixed
    ensures DetectQuestionType(q, hasImage).concept == "general mathematics"
    ensures DetectQuestionType(q, hasImage).keywords == []
  {
    Decision(q, hasImage);
    MixedHasNoKeywords(q, hasImage);
  }

  /** The catch-all category reports no keywords. */
  lemma MixedHasNoKeywords(q: string, hasImage: bool)
    requires DetectQuestionType(q, hasImage).qtype == Mixed
    ensures DetectQuestionType(q, hasImage).keywords == []
  {
    Decision(q, hasImage);
    CatchAllNoKeywords(DetectQuestionType(q, hasImage).qtype, Lower(q));
  }

  lemma CatchAllNoKeywords(t: QuestionType, text: string)
    requires t == Mixed
    ensures Dedup(Hits(CategoryKeywords(t), text)) == []
  {
    EmptyHits([], text);
    assert Dedup([]) == [];
  }

  /** Text matching no keyword list has no hits at all. */
  lemma NoHitCounts(lower: string)
    requires MatchesNoList(lower)
    ensures HitCounts(lower) == Counts(0, 0, 0, 0, 0, 0, 0)
  {
    EmptyHits(GeometryKeywords, lower);
    EmptyHits(GraphKeywords, lower);
    EmptyHits(TableKeywords, lower);
    EmptyHits(AlgebraKeywords, lower);
    EmptyHits(FractionKeywords, lower);
    EmptyHits(ExponentKeywords, lower);
    EmptyHits(PercentageKeywords, lower);
  }

  /** The analysis is the decision chain applied to the hit counts of the lower-cased text. */
  lemma Decision(q: string, hasImage: bool)
    ensures var r := DetectQuestionType(q, hasImage);
      && r.hasVisual == HasVisual(Lower(q), hasImage)
      && (r.qtype, r.concept) == Category(r.hasVisual, HitCounts(Lower(q)))
      && r.keywords == Dedup(Hits(CategoryKeywords(r.qtype), Lower(q)))
  {
  }

  lemma EmptyHits(keywords: seq<string>, text: string)
    requires forall k :: k in keywords ==> !Contains(text, k)
    ensures Hits(keywords, text) == []
  {
    Seqs.FilterNonePass(k => Contains(text, k), keywords);
  }

  /** The first two branches of the chain: visual geometry beats everything, then any graph hit
    * beats the remaining categories. */
  lemma Priority(q: string, hasImage: bool)
    ensures var c := HitCounts(Lower(q));
      var r := DetectQuestionType(q, hasImage);
      && (r.hasVisual && c.geometry > 0 ==> r.qtype == GeometryWithDiagram)
      && ((!(r.hasVisual && c.geometry > 0) && c.graph > 0) ==> r.qtype == Graph)
  {
    Decision(q, hasImage);
  }

  /** What each category needs once the first three branches have not fired: more than two
    * geometry hits, more than one algebra or fraction hit, at least one exponent or percentage hit. */
  lemma Thresholds(q: string, hasImage: bool)
    ensures var c := HitCounts(Lower(q));
      var r := DetectQuestionType(q, hasImage);
      var early := (r.hasVisual && c.geometry > 0) || c.graph > 0 || c.table > 0;
      && (r.qtype == Table ==> c.table >= 1)
      && (!early && r.qtype == GeometryWithDiagram ==> c.geometry > 2)
      && (r.qtype == Algebra ==> !early && c.algebra > 1)
      && (r.qtype == Fractions ==> !early && c.fraction > 1 && c.algebra <= 1)
      && (r.qtype == Exponents ==> !early && c.exponent >= 1 && c.fraction <= 1)
      && (r.qtype == Percentage ==> !early && c.percentage >= 1 && c.exponent == 0)
      && (r.qtype == Mixed <==>
            (!early && c.geometry <= 2 && c.algebra <= 1 && c.fraction <= 1
             && c.exponent == 0 && c.percentage == 0))
  {
    Decision(q, hasImage);
    var r := DetectQuestionType(q, hasImage);
    CategoryThresholds(r.hasVisual, HitCounts(Lower(q)));
  }

  /** `Thresholds` on the decision chain itself. */
  lemma CategoryThresholds(hasVisual: bool, c: Counts)
    ensures var t := Category(hasVisual, c).0;
      var early := (hasVisual && c.geometry > 0) || c.graph > 0 || c.table > 0;
      && (t == Table ==> c.table >= 1)
      && (!early && t == GeometryWithDiagram ==> c.geometry > 2)
      && (t == Algebra ==> !early && c.algebra > 1)
      && (t == Fractions ==> !early && c.fraction > 1 && c.algebra <= 1)
      && (t == Exponents ==> !early && c.exponent >= 1 && c.fraction <= 1)
      && (t == Percentage ==> !early && c.percentage >= 1 && c.exponent == 0)
      && (t == Mixed <==>
            (!early && c.geometry <= 2 && c.algebra <= 1 && c.fraction <= 1
             && c.exponent == 0 && c.percentage == 0))
      && t != Equations && t != NumberOperations
  {
  }

  /** Two categories of the enumeration are never produced by the classifier. */
  lemma NeverEquationsOrNumberOperations(q: string, hasImage: bool)
    ensures DetectQuestionType(q, hasImage).qtype != Equations
    ensures DetectQuestionType(q, hasImage).qtype != NumberOperations
  {
    Decision(q, hasImage);
    var r := DetectQuestionType(q, hasImage);
    CategoryThresholds(r.hasVisual, HitCounts(Lower(q)));
  }

  /** The analysis depends on the text only through its lower-cased form. */
  lemma DependsOnLowerOnly(a: string, b: string, hasImage: bool)
    requires Lower(a) == Lower(b)
    ensures DetectQuestionType(a, hasImage) == DetectQuestionType(b, hasImage)
  {
  }

  // ---- worked example: "What is (2/3)^2?" without an image -------------------------------

  const ExampleQuestion: string := "What is (2/3)^2?"
  const ExampleLowered: string := "what is (2/3)^2?"
  /** The characters of the lowered example. */
  const ExampleChars: set<char> := {'w', 'h', 'a', 't', ' ', 'i', 's', '(', '2', '/', '3', ')', '^', '?'}

  lemma ExampleLower()
    ensures Lower(ExampleQuestion) == ExampleLowered
  {
    var tail := ExampleLowered[1..];
    ExampleSplit();
    ExampleAlphabet();
    assert CharsIn(tail, ExampleChars);
    assert forall c :: c in ExampleChars ==> !IsUpper(c);
    LowerOfLowerCase(tail, ExampleChars);
    LowerAppend("W", tail);
  }

  lemma ExampleSplit()
    ensures ExampleQuestion == "W" + ExampleLowered[1..]
    ensures ExampleLowered == "w" + ExampleLowered[1..]
    ensures Lower("W") == "w"
  {
  }

  /** A string drawn from characters that are not capital letters is its own lower case. */
  lemma LowerOfLowerCase(s: string, a: set<char>)
    requires CharsIn(s, a) && forall c :: c in a ==> !IsUpper(c)
    ensures Lower(s) == s
  {
  }

  lemma ExampleAlphabet()
    ensures CharsIn(ExampleLowered, ExampleChars)
  {
  }

  lemma ExampleNotVisual(s: string)
    requires CharsIn(s, ExampleChars)
    ensures !HasVisual(s, false)
  {
    AbsentCharNotContained(s, "diagram", 0, ExampleChars);  AbsentCharNotContained(s, "figure", 0, ExampleChars); AbsentCharNotContained(s, "shown", 2, ExampleChars);
    AbsentCharNotContained(s, "graph", 0, ExampleChars); AbsentCharNotContained(s, "table", 2, ExampleChars); AbsentCharNotContained(s, "chart", 0, ExampleChars);
  }

  lemma ExampleNoGeometry(s: string)
    requires CharsIn(s, ExampleChars)
    ensures Hits(GeometryKeywords, s) == []
  {
    ExampleNoGeometryFirst(s);
    ExampleNoGeometrySecond(s);
    EmptyHits(GeometryKeywords, s);
  }

  lemma ExampleNoGeometryFirst(s: string)
    requires CharsIn(s, ExampleChars)
    ensures forall i :: 0 <= i < 10 ==> !Contains(s, GeometryKeywords[i])
  {
    AbsentCharNotContained(s, "triangle", 1, ExampleChars); AbsentCharNotContained(s, "circle", 0, ExampleChars); AbsentCharNotContained(s, "semicircle", 1, ExampleChars);
    AbsentCharNotContained(s, "rectangle", 0, ExampleChars); AbsentCharNotContained(s, "square", 1, ExampleChars); AbsentCharNotContained(s, "angle", 1, ExampleChars);
    AbsentCharNotContained(s, "degrees", 0, ExampleChars); AbsentCharNotContained(s, "perimeter", 0, ExampleChars); AbsentCharNotContained(s, "area", 1, ExampleChars);
    AbsentCharNotContained(s, "volume", 0, ExampleChars);
  }

  lemma ExampleNoGeometrySecond(s: string)
    requires CharsIn(s, ExampleChars)
    ensures forall i :: 10 <= i < 20 ==> !Contains(s, GeometryKeywords[i])
  {
    AbsentCharNotContained(s, "diameter", 0, ExampleChars); AbsentCharNotContained(s, "radius", 0, ExampleChars);
    AbsentCharNotContained(s, "inscribed", 1, ExampleChars); AbsentCharNotContained(s, "circumscribed", 0, ExampleChars); AbsentCharNotContained(s, "parallel", 0, ExampleChars);
    AbsentCharNotContained(s, "perpendicular", 0, ExampleChars); AbsentCharNotContained(s, "congruent", 0, ExampleChars); AbsentCharNotContained(s, "similar", 2, ExampleChars);
    AbsentCharNotContained(s, "polygon", 0, ExampleChars); AbsentCharNotContained(s, "quadrilateral", 0, ExampleChars);
  }

  lemma ExampleNoAlgebra(s: string)
    requires CharsIn(s, ExampleChars)
    ensures Hits(AlgebraKeywords, s) == []
  {
    AbsentCharNotContained(s, "solve", 1, ExampleChars); AbsentCharNotContained(s, "equation", 0, ExampleChars); AbsentCharNotContained(s, "variable", 0, ExampleChars);
    AbsentCharNotContained(s, "x =", 0, ExampleChars); AbsentCharNotContained(s, "y =", 0, ExampleChars); AbsentCharNotContained(s, "linear", 0, ExampleChars);
    AbsentCharNotContained(s, "quadratic", 0, ExampleChars); AbsentCharNotContained(s, "expression", 0, ExampleChars); AbsentCharNotContained(s, "simplify", 2, ExampleChars);
    AbsentCharNotContained(s, "factor", 0, ExampleChars); AbsentCharNotContained(s, "expand", 0, ExampleChars); AbsentCharNotContained(s, "substitute", 1, ExampleChars);
    EmptyHits(AlgebraKeywords, s);
  }

  lemma ExampleNoGraph(s: string)
    requires CharsIn(s, ExampleChars)
    ensures Hits(GraphKeywords, s) == []
  {
    AbsentCharNotContained(s, "graph", 0, ExampleChars);
    AbsentCharNotContained(s, "plot", 0, ExampleChars); AbsentCharNotContained(s, "coordinate", 0, ExampleChars); AbsentCharNotContained(s, "axis", 1, ExampleChars);
    AbsentCharNotContained(s, "axes", 1, ExampleChars); AbsentCharNotContained(s, "slope", 1, ExampleChars); AbsentCharNotContained(s, "intercept", 1, ExampleChars);
    AbsentCharNotContained(s, "line", 0, ExampleChars); AbsentCharNotContained(s, "curve", 0, ExampleChars); AbsentCharNotContained(s, "point", 0, ExampleChars);
    AbsentCharNotContained(s, "ordered pair", 0, ExampleChars);
    EmptyHits(GraphKeywords, s);
  }

  lemma ExampleNoTable(s: string)
    requires CharsIn(s, ExampleChars)
    ensures Hits(TableKeywords, s) == []
  {
    AbsentCharNotContained(s, "table", 2, ExampleChars); AbsentCharNotContained(s, "chart", 0, ExampleChars);
    AbsentCharNotContained(s, "data", 0, ExampleChars); AbsentCharNotContained(s, "frequency", 0, ExampleChars); AbsentCharNotContained(s, "mean", 0, ExampleChars);
    AbsentCharNotContained(s, "median", 0, ExampleChars); AbsentCharNotContained(s, "mode", 0, ExampleChars); AbsentCharNotContained(s, "statistics", 8, ExampleChars);
    AbsentCharNotContained(s, "probability", 0, ExampleChars);
    EmptyHits(TableKeywords, s);
  }

  lemma ExampleOneFraction(s: string)
    requires CharsIn(s, ExampleChars)
    requires Contains(s, "/")
    ensures |Hits(FractionKeywords, s)| == 1
  {
    AbsentCharNotContained(s, "fraction", 0, ExampleChars); AbsentCharNotContained(s, "numerator", 0, ExampleChars); AbsentCharNotContained(s, "denominator", 0, ExampleChars);
    AbsentCharNotContained(s, "divide", 0, ExampleChars); AbsentCharNotContained(s, "quotient", 0, ExampleChars);
    var rest := ["numerator", "denominator", "divide", "quotient"];
    assert FractionKeywords == ["fraction"] + ["/"] + rest;
    Seqs.FilterAppend(k => Contains(s, k), ["fraction"] + ["/"], rest);
    Seqs.FilterAppend(k => Contains(s, k), ["fraction"], ["/"]);
    EmptyHits(rest, s);
  }

  lemma ExampleOfLowered(q: string)
    requires CharsIn(Lower(q), ExampleChars) && Contains(Lower(q), "/") && Contains(Lower(q), "^")
    ensures DetectQuestionType(q, false).qtype == Exponents
  {
    var s := Lower(q);
    ExampleNotVisual(s);
    ExampleNoGeometry(s);
    ExampleNoAlgebra(s);
    ExampleNoGraph(s);
    ExampleNoTable(s);
    ExampleOneFraction(s);
    assert "^" in Hits(ExponentKeywords, s);
  }

  /** One fraction hit ('/') is below the fraction threshold, so the exponent hit ('^') decides. */
  lemma Example()
    ensures DetectQuestionType(ExampleQuestion, false).qtype == Exponents
  {
    ExampleLower();
    ExampleAlphabet();
    assert OccursAt(ExampleLowered, "/", 10);
    assert OccursAt(ExampleLowered, "^", 13);
    ExampleOfLowered(ExampleQuestion);
  }
}
