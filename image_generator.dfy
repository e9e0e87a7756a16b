/**
 * The DALL-E diagram request made for each generated question.  A question gets a diagram
 * request only when it is of the geometry-with-diagram type or mentions a shape word.  The
 * request's wording is built from facts read off the question text: the shapes named, the
 * diameter (or twice the radius) with its unit, and the angle labels.  The image service is a
 * parameter; whatever it does, the caller gets a URL or nothing, never an error.
 *
 * The text is read with these regular expressions (JavaScript semantics: the leftmost match
 * wins, alternatives are tried in order at each position, quantifiers are greedy, and
 * without the `u` flag the `i` flag folds ASCII letters only):
 *   `/diameter\s+(?:of\s+)?(\d+)\s*(cm|m|meters?|units?|feet?)/i` and the same with `radius`;
 *   `/(\d+)\s*degrees?/g`, every match in turn;
 *   `/(?:base\s+angle|one\s+(?:base\s+)?angle|angle|one\s+of\s+the\s+angles?)\s+`
 *     `(?:is\s+|of\s+|measuring\s+)?(\d+)\s*degrees?/i`.
 */
module ImageGenerator {

  import opened Wrappers
  import opened Strings
  import Leftmost
  import opened QuestionTypeDetector

  // ---------------------------------------------------------------------------------------
  // Which questions get a diagram
  // ---------------------------------------------------------------------------------------

  /** The words whose presence in the lower-cased text asks for a diagram. */
  const ShapeWords: seq<string> :=
    ["semicircle", "triangle", "circle", "angle", "diameter", "radius", "inscribed"]

  predicate HasShapeWord(lower: string) {
    exists k :: 0 <= k < |ShapeWords| && Contains(lower, ShapeWords[k])
  }

  /** A diagram is requested for the geometry-with-diagram type and for any text naming a shape. */
  predicate WantsDiagram(questionText: string, questionType: QuestionType) {
    questionType == GeometryWithDiagram || HasShapeWord(Lower(questionText))
  }

  // ---------------------------------------------------------------------------------------
  // Diameter and radius
  // ---------------------------------------------------------------------------------------

  /** The units spelt in full after a measurement. */
  const UnitSpellings: set<string> := {"cm", "m", "units", "unit", "feet", "fee"}

  /**
    * `(cm|m|meters?|units?|feet?)` at the start of `t`, as written.  The alternative `m` comes
    * before `meters?`, so `meters?` is never the one that matches.
    */
  function UnitAt(t: string): (r: Option<string>)
    ensures r.Some? ==> |r.value| <= |t| && r.value == t[..|r.value|] && Lower(r.value) in UnitSpellings
  {
    if StartsWithCI(t, "cm") then Some(t[..2])
    else if StartsWithCI(t, "m") then Some(t[..1])
    else if StartsWithCI(t, "units") then Some(t[..5])
    else if StartsWithCI(t, "unit") then Some(t[..4])
    else if StartsWithCI(t, "feet") then Some(t[..4])
    else if StartsWithCI(t, "fee") then Some(t[..3])
    else None
  }

  /** `w\s+` at the start of `t`, case-insensitively: what follows the white space. */
  function AfterWord(w: string, t: string): (r: Option<string>)
    ensures r.Some? ==> |r.value| < |t|
  {
    if StartsWithCI(t, w) && Run(IsSpace, t[|w|..]) > 0 then
      Some(t[|w| + Run(IsSpace, t[|w|..])..])
    else None
  }

  /** `\s*` at the start of `t`: what follows. */
  function SkipSpaces(t: string): string {
    t[Run(IsSpace, t)..]
  }

  /**
    * `word\s+(?:of\s+)?(\d+)\s*(cm|m|meters?|units?|feet?)` matched at the start of `t`: the
    * digits and the unit, both as written.
    */
  function MeasureAt(word: string, t: string): (r: Option<(string, string)>)
    ensures r.Some? ==> MeasureShape(r.value)
  {
    match AfterWord(word, t)
    case None => None
    case Some(a) =>
      var b := match AfterWord("of", a) case Some(c) => c case None => a;
      var d := Run(IsDigit, b);
      if d == 0 then None
      else
        match UnitAt(SkipSpaces(b[d..]))
        case None => None
        case Some(u) => Some((b[..d], u))
  }

  /** A captured measurement: a run of digits and a unit from the list. */
  predicate MeasureShape(m: (string, string)) {
    m.0 != [] && AllDigits(m.0) && Lower(m.1) in UnitSpellings
  }

  /** The first match of the measurement expression for `word` in `s`. */
  function FindMeasure(word: string, s: string): (r: Option<(string, string)>)
    ensures r.Some? ==> MeasureShape(r.value)
  {
    var f := t => MeasureAt(word, t);
    Leftmost.FirstIsLeftmost(f, s);
    if Leftmost.First(f, s).Some? then
      var i :| 0 <= i <= |s| && Leftmost.First(f, s) == f(s[i..]);
      assert MeasureAt(word, s[i..]).Some?;
      Leftmost.First(f, s)
    else None
  }

  /**
    * The diameter label and its unit: the diameter as written when the text states one,
    * otherwise twice a stated radius, otherwise no label and centimetres.
    */
  function DiameterAndUnit(questionText: string): (string, string) {
    match FindMeasure("diameter", questionText)
    case Some((d, u)) => (d, u)
    case None =>
      match FindMeasure("radius", questionText)
      case Some((r, u)) => (NatToString(2 * DigitsValue(r)), u)
      case None => ("", "cm")
  }

  // ---------------------------------------------------------------------------------------
  // Angles
  // ---------------------------------------------------------------------------------------

  /**
    * `(\d+)\s*degrees?` at the start of `t` (`ci`: with the `i` flag): the number read from
    * the digits and the length of the match.
    */
  function DegreesAt(t: string, ci: bool): (r: Option<(nat, nat)>)
    ensures r.Some? ==> 0 < r.value.1 <= |t|
  {
    var d := Run(IsDigit, t);
    var k := Run(IsSpace, t[d..]);
    var e := t[d + k..];
    var word := if ci then StartsWithCI(e, "degree") else StartsWith(e, "degree");
    if d == 0 || !word then None
    else
      var n := d + k + 6;
      var plural := n < |t| && (if ci then LowerChar(t[n]) == 's' else t[n] == 's');
      Some((DigitsValue(t[..d]), if plural then n + 1 else n))
  }

  /**
    * The numbers of all matches of `/(\d+)\s*degrees?/g` in `s`, in order; the scan resumes
    * where a match ended.
    */
  function DegreeNumbers(s: string): seq<nat>
    decreases |s|
  {
    if s == [] then []
    else
      match DegreesAt(s, false)
      case Some((v, n)) => [v] + DegreeNumbers(s[n..])
      case None => DegreeNumbers(s[1..])
  }

  /**
    * The words before a base angle's number, alternative `k` of
    * `base\s+angle | one\s+(?:base\s+)?angle | angle | one\s+of\s+the\s+angles?`:
    * what follows them.
    */
  function AngleLead(k: nat, t: string): Option<string> {
    match k
    case 0 =>
      (match AfterWord("base", t)
       case Some(a) => if StartsWithCI(a, "angle") then Some(a[5..]) else None
       case None => None)
    case 1 =>
      (match AfterWord("one", t)
       case Some(a) =>
         (match AfterWord("base", a)
          case Some(b) => if StartsWithCI(b, "angle") then Some(b[5..]) else None
          case None => if StartsWithCI(a, "angle") then Some(a[5..]) else None)
       case None => None)
    case 2 => if StartsWithCI(t, "angle") then Some(t[5..]) else None
    case _ =>
      var a := AfterWord("one", t);
      var b := if a.Some? then AfterWord("of", a.value) else None;
      var c := if b.Some? then AfterWord("the", b.value) else None;
      if c.None? || !StartsWithCI(c.value, "angle") then None
      else
        var rest := c.value[5..];
        if rest != [] && LowerChar(rest[0]) == 's' then Some(rest[1..]) else Some(rest)
  }

  /** `\s+(?:is\s+|of\s+|measuring\s+)?(\d+)\s*degrees?` at the start of `t`: the number. */
  function AngleValueAt(t: string): Option<nat> {
    var k := Run(IsSpace, t);
    if k == 0 then None
    else
      var a := t[k..];
      var b :=
        match AfterWord("is", a)
        case Some(c) => c
        case None =>
          match AfterWord("of", a)
          case Some(c) => c
          case None =>
            match AfterWord("measuring", a)
            case Some(c) => c
            case None => a;
      match DegreesAt(b, true)
      case Some((v, _)) => Some(v)
      case None => None
  }

  /** The base-angle expression at the start of `t`, alternatives `k`, `k + 1`, ... in order. */
  function BaseAngleFrom(k: nat, t: string): Option<nat>
    decreases 4 - k
  {
    if k >= 4 then None
    else
      var v := match AngleLead(k, t) case Some(a) => AngleValueAt(a) case None => None;
      if v.Some? then v else BaseAngleFrom(k + 1, t)
  }

  /** The number of the first match of the base-angle expression in `s`. */
  function BaseAngle(s: string): Option<nat> {
    Leftmost.First(t => BaseAngleFrom(0, t), s)
  }

  /** The text names an unknown angle `x`. */
  predicate HasXAngle(questionText: string) {
    Contains(Lower(questionText), "angle x") || Contains(Lower(questionText), "angle labeled x")
  }

  /** The angle sizes the diagram may label. */
  predicate InRange(n: nat) {
    0 < n <= 180
  }

  predicate Distinct(ns: seq<nat>) {
    forall i, j :: 0 <= i < j < |ns| ==> ns[i] != ns[j]
  }

  /** The in-range numbers of `nums`, each at its first appearance, in order. */
  function FirstInRange(nums: seq<nat>): (r: seq<nat>)
    ensures forall v :: v in r <==> v in nums && InRange(v)
    ensures Distinct(r)
    decreases |nums|
  {
    if nums == [] then []
    else
      var rest := FirstInRange(nums[..|nums| - 1]);
      var last := nums[|nums| - 1];
      assert nums == nums[..|nums| - 1] + [last];
      if InRange(last) && last !in rest then rest + [last] else rest
  }

  /** The position of the first `v` in `nums`. */
  function FirstIndex(nums: seq<nat>, v: nat): (i: nat)
    requires v in nums
    ensures i < |nums| && nums[i] == v && v !in nums[..i]
  {
    if nums[0] == v then 0
    else
      var i := 1 + FirstIndex(nums[1..], v);
      assert nums[..i] == [nums[0]] + nums[1..][..i - 1];
      i
  }

  /** The numbers labelled: the in-range degree numbers, then the base angle when it is new. */
  function AngleValues(questionText: string): seq<nat> {
    var picked := FirstInRange(DegreeNumbers(questionText));
    match BaseAngle(questionText)
    case Some(b) => if InRange(b) && b !in picked then picked + [b] else picked
    case None => picked
  }

  /** `${num}°` */
  function Label(n: nat): string {
    NatToString(n) + "\U{B0}"
  }

  function Labels(ns: seq<nat>): (r: seq<string>)
    ensures |r| == |ns|
    ensures forall i :: 0 <= i < |ns| ==> r[i] == Label(ns[i])
  {
    seq(|ns|, i requires 0 <= i < |ns| => Label(ns[i]))
  }

  /** The angle labels of the diagram: the numbers, then `x` when the text names angle x. */
  function AngleLabels(questionText: string): seq<string> {
    Labels(AngleValues(questionText)) + (if HasXAngle(questionText) then ["x"] else [])
  }

  /**
    * The loop over the degree matches, the base angle and the unknown angle, keeping the set
    * of numbers already labelled.
    */
  method CollectAngleLabels(questionText: string) returns (angles: seq<string>)
    ensures angles == AngleLabels(questionText)
  {
    angles := [];
    var seen: set<nat> := {};
    var nums := DegreeNumbers(questionText);
    ghost var picked: seq<nat> := [];
    for i := 0 to |nums|
      invariant picked == FirstInRange(nums[..i])
      invariant forall v :: v in seen <==> v in picked
      invariant angles == Labels(picked)
    {
      var num := nums[i];
      FirstInRangeStep(nums, i);
      if InRange(num) && num !in seen {
        seen := seen + {num};
        LabelsAppend(picked, num);
        angles := angles + [Label(num)];
        picked := picked + [num];
      }
    }
    assert nums[..|nums|] == nums;
    var base := BaseAngle(questionText);
    if base.Some? {
      var num := base.value;
      if InRange(num) && num !in seen {
        seen := seen + {num};
        LabelsAppend(picked, num);
        angles := angles + [Label(num)];
        picked := picked + [num];
      }
    }
    assert angles == Labels(AngleValues(questionText));
    LabelIsNotX(AngleValues(questionText));
    if HasXAngle(questionText) && "x" !in angles {
      angles := angles + ["x"];
    }
  }

  // ---------------------------------------------------------------------------------------
  // The request
  // ---------------------------------------------------------------------------------------

  /** What the request says about the question. */
  datatype DiagramFacts = DiagramFacts(
    hasSemicircle: bool,
    hasTriangle: bool,
    diameter: string,
    unit: string,
    angles: seq<string>)

  function Facts(questionText: string): DiagramFacts {
    var lower := Lower(questionText);
    var (diameter, unit) := DiameterAndUnit(questionText);
    DiagramFacts(Contains(lower, "semicircle"), Contains(lower, "triangle"), diameter, unit,
      AngleLabels(questionText))
  }

  /**
    * The fixed prose of the request:
    * `head`: the style requirements, up to the list of shapes;
    * `middle`: the remaining style requirements, up to the description of the scene;
    * `closing`: the size and exact-labels instructions.
    */
  datatype DiagramTexts = DiagramTexts(head: string, middle: string, closing: string)

  /** The prose as the source writes it. */
  const SourceDiagramTexts: DiagramTexts := DiagramTexts(
    "A very simple, small 2D line drawing geometry diagram for a Grade 9 math textbook question.\n"
      + "\n"
      + "CRITICAL REQUIREMENTS - MUST FOLLOW EXACTLY:\n"
      + "- Extremely simple 2D line drawing - flat, NO 3D, NO perspective, NO depth, NO shading, NO texture\n"
      + "- Black thin lines ONLY on pure white background\n"
      + "- Small size - should fit in a small box next to text, NOT full screen\n"
      + "- Simple geometric shapes: ",
    "\n- Style: Like a tiny simple diagram in a math book - minimal, clean, educational\n"
      + "- NO decorative elements, NO tools, NO objects, NO background, NO grid, NO protractor markings\n"
      + "- NO complex patterns, NO technical drawings, NO blueprints\n"
      + "- Just the basic shape with labels matching the question text EXACTLY\n"
      + "\n"
      + "The diagram must show EXACTLY what the question describes:\n",
    "\n\nMake it SMALL and SIMPLE - like a 2-inch square diagram that fits next to text in a textbook.\n"
      + "\n"
      + "CRITICAL: The numbers and labels in the diagram MUST match the question text EXACTLY. If the question says \"diameter of 14 cm\", the diagram MUST show \"14 cm\". If the question says \"one angle is 45 degrees\", the diagram MUST show \"45\U{B0}\".")

  /** The measurement as the request quotes it. */
  function Measure(f: DiagramFacts): string {
    f.diameter + " " + f.unit
  }

  function ShapeLine(f: DiagramFacts): string {
    (if f.hasSemicircle then "a semicircle" else "") + " "
      + (if f.hasTriangle then "with a triangle inside" else "")
  }

  function DiameterLine(f: DiagramFacts): string {
    if f.diameter != "" then "- Diameter MUST be labeled exactly: \"" + Measure(f) + "\"" else ""
  }

  function AnglesLine(f: DiagramFacts): string {
    if |f.angles| > 0 then "- Angles MUST be labeled exactly: " + Join(f.angles, ", ")
    else "- One angle labeled \"x\""
  }

  function SceneLine(f: DiagramFacts): string {
    if f.hasSemicircle && f.hasTriangle then
      "A semicircle" + (if f.diameter != "" then " with diameter labeled \"" + Measure(f) + "\"" else "")
        + ". A triangle is inscribed with its base as the diameter."
    else ""
  }

  function AngleSummary(f: DiagramFacts): string {
    if |f.angles| > 0 then "Angles labeled: " + Join(f.angles, ", ") else "One angle labeled x"
  }

  function MeasurementLine(f: DiagramFacts): string {
    if f.diameter != "" then
      "The diameter measurement \"" + Measure(f) + "\" MUST be clearly visible in the diagram."
    else ""
  }

  /** The request sent to the image service. */
  function DiagramPrompt(x: DiagramTexts, f: DiagramFacts): string {
    x.head + ShapeLine(f) + "\n" + DiameterLine(f) + "\n" + AnglesLine(f) + x.middle
      + SceneLine(f) + "\n" + AngleSummary(f) + "\n" + MeasurementLine(f) + x.closing
  }

  // ---------------------------------------------------------------------------------------
  // The service and the result
  // ---------------------------------------------------------------------------------------

  /** What the image service does with a request: `url` is the first image's URL, if any. */
  datatype ImageReply = Generated(url: Option<string>) | Threw

  /** A reply's URL when it is a non-empty string. */
  function ReplyUrl(reply: ImageReply): (r: Option<string>)
    ensures r.Some? <==> reply.Generated? && reply.url.Some? && reply.url.value != ""
    ensures r.Some? ==> r == reply.url
  {
    match reply
    case Generated(Some(u)) => if u != "" then Some(u) else None
    case _ => None
  }

  /** `generateQuestionDiagram`: the URL of the diagram, or nothing. */
  function Diagram(x: DiagramTexts, questionText: string, questionType: QuestionType,
                   service: string -> ImageReply): Option<string>
  {
    if !WantsDiagram(questionText, questionType) then None
    else ReplyUrl(service(DiagramPrompt(x, Facts(questionText))))
  }

  /** The diameter label and unit, the diameter taking priority over the radius. */
  method ChooseDiameter(questionText: string) returns (diameter: string, unit: string)
    ensures (diameter, unit) == DiameterAndUnit(questionText)
  {
    diameter := "";
    unit := "cm";
    var diameterMatch := FindMeasure("diameter", questionText);
    var radiusMatch := FindMeasure("radius", questionText);
    if diameterMatch.Some? {
      diameter := diameterMatch.value.0;
      unit := diameterMatch.value.1;
    } else if radiusMatch.Some? {
      var radius := DigitsValue(radiusMatch.value.0);
      diameter := NatToString(radius * 2);
      unit := radiusMatch.value.1;
    }
  }

  /**
    * The request as the source builds it.  `questionNumber` and `concept` appear only in log
    * messages.
    */
  method GenerateQuestionDiagram(x: DiagramTexts, questionNumber: int, questionText: string,
                                 concept: string, questionType: QuestionType,
                                 service: string -> ImageReply)
    returns (r: Option<string>)
    ensures r == Diagram(x, questionText, questionType, service)
  {
    var lower := Lower(questionText);
    if questionType != GeometryWithDiagram && !HasShapeWord(lower) {
      return None;
    }
    var hasSemicircle := Contains(lower, "semicircle");
    var hasTriangle := Contains(lower, "triangle");
    var angles := CollectAngleLabels(questionText);
    var diameter, unit := ChooseDiameter(questionText);
    var facts := DiagramFacts(hasSemicircle, hasTriangle, diameter, unit, angles);
    assert facts == Facts(questionText);
    var prompt := DiagramPrompt(x, facts);
    var reply := service(prompt);
    if reply.Generated? && reply.url.Some? && reply.url.value != "" {
      r := reply.url;
    } else {
      r := None;
    }
  }

  // ---------------------------------------------------------------------------------------
  // Properties
  // ---------------------------------------------------------------------------------------

  lemma FirstInRangeStep(nums: seq<nat>, i: nat)
    requires i < |nums|
    ensures var p := FirstInRange(nums[..i]);
      FirstInRange(nums[..i + 1]) == if InRange(nums[i]) && nums[i] !in p then p + [nums[i]] else p
  {
    assert nums[..i + 1][..i] == nums[..i];
  }

  lemma LabelsAppend(ns: seq<nat>, n: nat)
    ensures Labels(ns + [n]) == Labels(ns) + [Label(n)]
  {
  }

  /** A label ends in the degree sign, so it is never `x`. */
  lemma LabelIsNotX(ns: seq<nat>)
    ensures "x" !in Labels(ns)
  {
    forall i | 0 <= i < |ns|
      ensures Labels(ns)[i] != "x"
    {
      var l := Label(ns[i]);
      assert l[|l| - 1] == '\U{B0}';
    }
  }

  /** First positions agree in a sequence and in a prefix holding the value. */
  lemma FirstIndexPrefix(nums: seq<nat>, n: nat, v: nat)
    requires n <= |nums| && v in nums[..n]
    ensures FirstIndex(nums, v) == FirstIndex(nums[..n], v)
  {
  }

  /** The numbers appear in the order of their first appearance in `nums`. */
  lemma {:induction false} FirstInRangeOrder(nums: seq<nat>)
    ensures forall i, j :: 0 <= i < j < |FirstInRange(nums)| ==>
      FirstIndex(nums, FirstInRange(nums)[i]) < FirstIndex(nums, FirstInRange(nums)[j])
    decreases |nums|
  {
    if nums != [] {
      var n := |nums| - 1;
      var m := nums[..n];
      var rest := FirstInRange(m);
      var r := FirstInRange(nums);
      FirstInRangeOrder(m);
      forall i, j | 0 <= i < j < |r|
        ensures FirstIndex(nums, r[i]) < FirstIndex(nums, r[j])
      {
        assert r[i] == rest[i] && r[i] in m;
        FirstIndexPrefix(nums, n, r[i]);
        if j < |rest| {
          assert r[j] == rest[j] && r[j] in m;
          FirstIndexPrefix(nums, n, r[j]);
        } else {
          assert r[j] == nums[n] && r[j] !in m;
          assert FirstIndex(nums, r[j]) == n;
        }
      }
    }
  }

  /**
    * The numbers labelled: distinct, each in 1..180, each a degree number of the text or the
    * base angle; the degree numbers come first in their order of appearance.
    */
  lemma AngleValuesShape(questionText: string)
    ensures Distinct(AngleValues(questionText))
    ensures forall v :: v in AngleValues(questionText) <==>
      InRange(v) && (v in DegreeNumbers(questionText) || BaseAngle(questionText) == Some(v))
    ensures var nums := DegreeNumbers(questionText);
      forall i, j :: 0 <= i < j < |FirstInRange(nums)| ==>
        FirstIndex(nums, AngleValues(questionText)[i]) < FirstIndex(nums, AngleValues(questionText)[j])
  {
    FirstInRangeOrder(DegreeNumbers(questionText));
  }

  /** Labels of distinct numbers are distinct. */
  lemma LabelInjective(m: nat, n: nat)
    requires Label(m) == Label(n)
    ensures m == n
  {
    var a := NatToString(m);
    var b := NatToString(n);
    assert a == Label(m)[..|a|];
    assert b == Label(n)[..|b|];
    NatToStringInjective(m, n);
  }

  /** The angle labels are distinct; `x` is among them exactly when the text names angle x,
    * and then it comes last. */
  lemma AngleLabelsShape(questionText: string)
    ensures NoDuplicates(AngleLabels(questionText))
    ensures "x" in AngleLabels(questionText) <==> HasXAngle(questionText)
    ensures HasXAngle(questionText) ==> AngleLabels(questionText)[|AngleLabels(questionText)| - 1] == "x"
  {
    var vs := AngleValues(questionText);
    var ls := AngleLabels(questionText);
    AngleValuesShape(questionText);
    LabelIsNotX(vs);
    forall i, j | 0 <= i < j < |ls|
      ensures ls[i] != ls[j]
    {
      if j < |vs| {
        if ls[i] == ls[j] {
          LabelInjective(vs[i], vs[j]);
        }
      } else {
        assert ls[i] == Labels(vs)[i];
      }
    }
  }

  /** A stated diameter or radius gives a label of digits that reads as the diameter; the
    * unit stays `cm` only when neither is stated. */
  lemma DiameterShape(questionText: string)
    ensures var (d, u) := DiameterAndUnit(questionText);
      var dm := FindMeasure("diameter", questionText);
      var rm := FindMeasure("radius", questionText);
      && (d == "" <==> dm.None? && rm.None?)
      && (d != "" ==> AllDigits(d) && Lower(u) in UnitSpellings)
      && (dm.Some? ==> d == dm.value.0 && u == dm.value.1)
      && (dm.None? && rm.Some? ==> DigitsValue(d) == 2 * DigitsValue(rm.value.0) && u == rm.value.1)
      && (d == "" ==> u == "cm")
  {
    var rm := FindMeasure("radius", questionText);
    if rm.Some? {
      NatToStringRoundTrip(2 * DigitsValue(rm.value.0));
    }
  }

  /** The unit alternatives are tried in order, so `meter` and `meters` are captured as `m`. */
  lemma MetersCapturedAsM(t: string)
    requires StartsWithCI(t, "meter")
    ensures UnitAt(t) == Some(t[..1])
  {
    assert LowerChar(t[1]) == 'e';
  }

  /** What the line that labels the angles contains, the request contains. */
  lemma AnglesLineInPrompt(x: DiagramTexts, f: DiagramFacts, w: string)
    requires Contains(AnglesLine(f), w)
    ensures Contains(DiagramPrompt(x, f), w)
  {
    var p1 := x.head + ShapeLine(f) + "\n" + DiameterLine(f) + "\n";
    var p2 := p1 + AnglesLine(f);
    ContainsAfter(p1, AnglesLine(f), w);
    var p3 := p2 + x.middle;
    ContainsBefore(p2, x.middle, w);
    var p4 := p3 + SceneLine(f);
    ContainsBefore(p3, SceneLine(f), w);
    var p5 := p4 + "\n";
    ContainsBefore(p4, "\n", w);
    var p6 := p5 + AngleSummary(f);
    ContainsBefore(p5, AngleSummary(f), w);
    var p7 := p6 + "\n";
    ContainsBefore(p6, "\n", w);
    var p8 := p7 + MeasurementLine(f);
    ContainsBefore(p7, MeasurementLine(f), w);
    ContainsBefore(p8, x.closing, w);
  }

  /** What the line that labels the diameter contains, the request contains. */
  lemma DiameterLineInPrompt(x: DiagramTexts, f: DiagramFacts, w: string)
    requires Contains(DiameterLine(f), w)
    ensures Contains(DiagramPrompt(x, f), w)
  {
    var p1 := x.head + ShapeLine(f) + "\n";
    var p2 := p1 + DiameterLine(f);
    ContainsAfter(p1, DiameterLine(f), w);
    var p3 := p2 + "\n";
    ContainsBefore(p2, "\n", w);
    var p4 := p3 + AnglesLine(f);
    ContainsBefore(p3, AnglesLine(f), w);
    var p5 := p4 + x.middle;
    ContainsBefore(p4, x.middle, w);
    var p6 := p5 + SceneLine(f);
    ContainsBefore(p5, SceneLine(f), w);
    var p7 := p6 + "\n";
    ContainsBefore(p6, "\n", w);
    var p8 := p7 + AngleSummary(f);
    ContainsBefore(p7, AngleSummary(f), w);
    var p9 := p8 + "\n";
    ContainsBefore(p8, "\n", w);
    var p10 := p9 + MeasurementLine(f);
    ContainsBefore(p9, MeasurementLine(f), w);
    ContainsBefore(p10, x.closing, w);
  }

  /** The request quotes the measurement whenever there is a diameter label. */
  lemma PromptQuotesMeasure(x: DiagramTexts, f: DiagramFacts)
    requires f.diameter != ""
    ensures Contains(DiagramPrompt(x, f), Measure(f))
  {
    ContainsMiddle("- Diameter MUST be labeled exactly: \"", Measure(f), "\"");
    DiameterLineInPrompt(x, f, Measure(f));
  }

  /** The request lists every angle label, or asks for one angle `x` when there are none. */
  lemma PromptListsAngles(x: DiagramTexts, f: DiagramFacts)
    ensures |f.angles| > 0 ==> Contains(DiagramPrompt(x, f), Join(f.angles, ", "))
    ensures forall k :: 0 <= k < |f.angles| ==> Contains(DiagramPrompt(x, f), f.angles[k])
    ensures |f.angles| == 0 ==> Contains(DiagramPrompt(x, f), AnglesLine(f))
  {
    var j := Join(f.angles, ", ");
    if |f.angles| > 0 {
      ContainsSelf(j);
      ContainsAfter("- Angles MUST be labeled exactly: ", j, j);
      AnglesLineInPrompt(x, f, j);
      forall k | 0 <= k < |f.angles|
        ensures Contains(DiagramPrompt(x, f), f.angles[k])
      {
        JoinContains(f.angles, ", ", k);
        ContainsAfter("- Angles MUST be labeled exactly: ", j, f.angles[k]);
        AnglesLineInPrompt(x, f, f.angles[k]);
      }
    } else {
      ContainsSelf(AnglesLine(f));
      AnglesLineInPrompt(x, f, AnglesLine(f));
    }
  }

  /** A diagram is a non-empty URL the service returned for this question's request, and
    * only questions that want a diagram reach the service. */
  lemma DiagramComesFromService(x: DiagramTexts, questionText: string, questionType: QuestionType,
                                service: string -> ImageReply)
    ensures var r := Diagram(x, questionText, questionType, service);
      r.Some? <==> (WantsDiagram(questionText, questionType)
        && service(DiagramPrompt(x, Facts(questionText))).Generated?
        && service(DiagramPrompt(x, Facts(questionText))).url.Some?
        && service(DiagramPrompt(x, Facts(questionText))).url.value != "")
    ensures var r := Diagram(x, questionText, questionType, service);
      r.Some? ==> r == service(DiagramPrompt(x, Facts(questionText))).url
  {
  }
}
