/**
 * System prompts for the question generator: one shared base block followed by a block of
 * requirements chosen by question category, and the wording of the DALL-E diagram request.
 * The prose is a parameter (`SourceTexts` holds the source's own), so every property below
 * holds whatever the prose says.
 */
module PromptTemplates {

  import opened Strings
  import opened QuestionTypeDetector

  /**
    * The prose pieces the prompts are assembled from:
    * `baseIntro`: opening of the base block: examiner role and formatting rules;
    * `band12`: difficulty band for questions 1-2;
    * `band34`: difficulty band for questions 3-4;
    * `band57`: difficulty band for questions 5-7;
    * `band810`: difficulty band for questions 8-10;
    * `closingHead`: closing instruction of the base block, up to its question count;
    * `geometryBlock`: geometry-with-diagrams requirements;
    * `graphBlock`: graph-analysis requirements;
    * `tableBlock`: table/data-analysis requirements;
    * `algebraBlock`: algebra requirements;
    * `numberOperationsBlock`: number-operations requirements;
    * `generalBlock`: general-mathematics requirements;
    */
  datatype PromptTexts = PromptTexts(
    baseIntro: string,
    band12: string,
    band34: string,
    band57: string,
    band810: string,
    closingHead: string,
    geometryBlock: string,
    graphBlock: string,
    tableBlock: string,
    algebraBlock: string,
    numberOperationsBlock: string,
    generalBlock: string)

  /** The prose as the source templates write it. */
  const SourceTexts: PromptTexts := PromptTexts(
    // BaseIntro
    "You are an expert EQAO math examiner specializing in Grade 9 Ontario curriculum mathematics. Your task is to generate EQAO-style math questions that demonstrate deep understanding and consistent concept application.\n"
      + "\n"
      + "CRITICAL FORMATTING RULES:\n"
      + "- Write ALL mathematical expressions in plain text format, NOT LaTeX\n"
      + "- Use standard mathematical notation that can be read as plain text\n"
      + "- For fractions, write as: (a/b) or a/b, NOT \\frac{a}{b}\n"
      + "- For exponents, write as: x^2 or x squared, NOT x^{2}\n"
      + "- For angles, write as: 45 degrees or 45\U{C2}\U{B0}, NOT 45^\\circ\n"
      + "- For square roots, write as: sqrt(x) or square root of x, NOT \\sqrt{x}\n"
      + "- DO NOT use any LaTeX commands\n"
      + "- Keep all text readable and clear without special formatting\n"
      + "\n"
      + "CRITICAL QUESTION STRUCTURE AND DIFFICULTY PROGRESSION:\n",
    // Band12
    "- Questions 1-2: VERY EASY - Direct, straightforward application. Simple numbers, immediate recognition.",
    // Band34
    "- Questions 3-4: MEDIUM - Same concept with more complex numbers or one additional step.",
    // Band57
    "- Questions 5-7: TOUGH - Application-oriented word problems with real-world scenarios.",
    // Band810
    "- Questions 8-10: MORE TOUGH - Highly complex application-oriented word problems with multi-step reasoning.",
    // ClosingHead
    "\n"
      + "\n"
      + "Return your response as a JSON object with a \"questions\" array with ",
    // GeometryBlock
    "\n"
      + "\n"
      + "GEOMETRY WITH DIAGRAMS - CRITICAL REQUIREMENTS:\n"
      + "\n"
      + "1. CONCEPT ANALYSIS:\n"
      + "   - Identify the EXACT geometric concept (e.g., angle relationships, area formulas, triangle properties, circle theorems, etc.)\n"
      + "   - Understand the visual relationship shown in the source diagram\n"
      + "   - Extract all relevant measurements, angles, and relationships\n"
      + "\n"
      + "2. QUESTION VARIETY (CRITICAL - EACH QUESTION MUST BE DIFFERENT):\n"
      + "   - Question 1-2: Ask about DIFFERENT aspects - maybe find a different angle, a side length, or a simple property\n"
      + "   - Question 3-4: Combine the concept with basic calculations - maybe find area, perimeter, or use the concept to solve for a different variable\n"
      + "   - Question 5-7: Real-world applications with the same concept but different scenarios (e.g., different shapes, different contexts)\n"
      + "   - Question 8-10: Complex multi-step problems that use the concept along with other geometric principles\n"
      + "\n"
      + "3. DIAGRAM DESCRIPTIONS:\n"
      + "   - Each question MUST describe a UNIQUE diagram/scenario\n"
      + "   - Provide detailed descriptions: shapes, measurements, angle labels, relationships\n"
      + "   - Make each diagram description different but related to the same core concept\n"
      + "   - Include specific measurements and labels in your descriptions\n"
      + "\n"
      + "4. ANSWER VARIETY:\n"
      + "   - DO NOT make all answers the same! Each question should have a DIFFERENT answer\n"
      + "   - Vary what is being asked: different angles, different lengths, different areas, etc.\n"
      + "   - The concept stays the same, but what you're solving for should vary\n"
      + "\n"
      + "5. COMPLEXITY PROGRESSION:\n"
      + "   - Q1-2: Simple direct questions (e.g., \"What is angle x?\" with easy numbers)\n"
      + "   - Q3-4: Slightly more complex (e.g., \"If angle A is X, what is the area?\")\n"
      + "   - Q5-7: Word problems (e.g., \"A garden has... calculate...\")\n"
      + "   - Q8-10: Multi-step complex problems (e.g., \"Given... and... find...\")\n"
      + "\n"
      + "EXAMPLE FOR TRIANGLE IN SEMICIRCLE:\n"
      + "- Q1: Find the other base angle (not always 90!)\n"
      + "- Q2: Find the arc length or chord length\n"
      + "- Q3: Calculate area of the triangle\n"
      + "- Q4: Find the radius given certain measurements\n"
      + "- Q5-7: Real-world applications with different scenarios\n"
      + "- Q8-10: Complex problems combining multiple concepts",
    // GraphBlock
    "\n"
      + "\n"
      + "GRAPH ANALYSIS - CRITICAL REQUIREMENTS:\n"
      + "\n"
      + "1. Analyze the graph type (line graph, bar chart, scatter plot, etc.)\n"
      + "2. Identify axes, scales, data points, trends\n"
      + "3. Generate questions about:\n"
      + "   - Q1-2: Reading values from the graph\n"
      + "   - Q3-4: Calculating slopes, rates, or simple relationships\n"
      + "   - Q5-7: Interpreting trends and making predictions\n"
      + "   - Q8-10: Complex analysis combining multiple data points or trends",
    // TableBlock
    "\n"
      + "\n"
      + "TABLE/DATA ANALYSIS - CRITICAL REQUIREMENTS:\n"
      + "\n"
      + "1. Analyze the table structure and data relationships\n"
      + "2. Generate questions about:\n"
      + "   - Q1-2: Reading values from the table\n"
      + "   - Q3-4: Calculating means, medians, or simple statistics\n"
      + "   - Q5-7: Analyzing patterns and relationships\n"
      + "   - Q8-10: Complex data analysis and predictions",
    // AlgebraBlock
    "\n"
      + "\n"
      + "ALGEBRA - CRITICAL REQUIREMENTS:\n"
      + "\n"
      + "1. Identify the algebraic concept (solving equations, simplifying expressions, etc.)\n"
      + "2. Generate questions with:\n"
      + "   - Q1-2: Simple substitution or basic solving\n"
      + "   - Q3-4: More complex equations with multiple steps\n"
      + "   - Q5-7: Word problems requiring equation setup\n"
      + "   - Q8-10: Complex multi-step algebraic problems",
    // NumberOperationsBlock
    "\n"
      + "\n"
      + "NUMBER OPERATIONS - CRITICAL REQUIREMENTS:\n"
      + "\n"
      + "1. Identify the exact operation type\n"
      + "2. Generate questions with:\n"
      + "   - Q1-2: Simple direct calculations\n"
      + "   - Q3-4: Slightly more complex numbers\n"
      + "   - Q5-7: Word problems with real-world contexts\n"
      + "   - Q8-10: Complex multi-step problems",
    // GeneralBlock
    "\n"
      + "\n"
      + "GENERAL MATHEMATICS - CRITICAL REQUIREMENTS:\n"
      + "\n"
      + "1. Deeply analyze the source question's core concept\n"
      + "2. Generate 10 questions that:\n"
      + "   - Use the same concept throughout\n"
      + "   - Progressively increase in complexity\n"
      + "   - Have varied answers (not all the same!)\n"
      + "   - Apply the concept in different ways")

  const ExactlyTen: string := "exactly 10 questions"

  /** The shared base block every system prompt begins with. */
  function BasePrompt(x: PromptTexts): string
  {
    x.baseIntro + x.band12 + "\n" + x.band34 + "\n" + x.band57 + "\n" + x.band810
    + x.closingHead + ExactlyTen + "."
  }

  /** The requirements block for a category: four categories share one block, and the
    * categories without a case of their own get the general block. */
  function CategoryBlock(x: PromptTexts, t: QuestionType): string
  {
    match t
    case GeometryWithDiagram => x.geometryBlock
    case Graph => x.graphBlock
    case Table => x.tableBlock
    case Algebra => x.algebraBlock
    case Fractions | Exponents | Percentage | NumberOperations => x.numberOperationsBlock
    case _ => x.generalBlock
  }

  /** `getSystemPromptForType(type, hasImage)` over the prose `x`. */
  function GetSystemPromptForType(x: PromptTexts, t: QuestionType, hasImage: bool): string
  {
    BasePrompt(x) + CategoryBlock(x, t)
  }

  /** Every prompt begins with the base block. */
  lemma PromptStartsWithBase(x: PromptTexts, t: QuestionType, hasImage: bool)
    ensures StartsWith(GetSystemPromptForType(x, t, hasImage), BasePrompt(x))
  {
    StartsWithAppend(BasePrompt(x), CategoryBlock(x, t));
  }

  /** The prompt does not depend on whether the source came with an image. */
  lemma IgnoresHasImage(x: PromptTexts, t: QuestionType)
    ensures GetSystemPromptForType(x, t, true) == GetSystemPromptForType(x, t, false)
  {
  }

  /** The categories that share the number-operations block. */
  predicate NumberCategory(t: QuestionType) {
    t == Fractions || t == Exponents || t == Percentage || t == NumberOperations
  }

  /** Fractions, exponents, percentage and number operations all get the identical prompt. */
  lemma NumberCategoriesShareOnePrompt(x: PromptTexts, t: QuestionType, u: QuestionType, hasImage: bool)
    requires NumberCategory(t) && NumberCategory(u)
    ensures GetSystemPromptForType(x, t, hasImage) == GetSystemPromptForType(x, u, hasImage)
  {
  }

  /** Categories without a case of their own (equations and the catch-all) get the
    * general-mathematics prompt. */
  lemma DefaultIsGeneral(x: PromptTexts, t: QuestionType, hasImage: bool)
    requires t == Equations || t == Mixed
    ensures GetSystemPromptForType(x, t, hasImage) == BasePrompt(x) + x.generalBlock
  {
  }

  /** Every prompt carries the four difficulty-band lines and asks for exactly 10 questions. */
  lemma PromptStatesBandsAndCount(x: PromptTexts, t: QuestionType, hasImage: bool)
    ensures var r := GetSystemPromptForType(x, t, hasImage);
      && Contains(r, x.band12) && Contains(r, x.band34)
      && Contains(r, x.band57) && Contains(r, x.band810)
      && Contains(r, ExactlyTen)
  {
    ContainsExtend();
    ContainsSelf(x.band12);
    ContainsSelf(x.band34);
    ContainsSelf(x.band57);
    ContainsSelf(x.band810);
    ContainsSelf(ExactlyTen);
  }

  /** The detail level a diagram request asks for, by question number. */
  function DiagramDifficulty(questionNumber: int): string
  {
    if questionNumber <= 2 then "simple and clear"
    else if questionNumber <= 4 then "moderately detailed"
    else if questionNumber <= 7 then "detailed with measurements"
    else "complex with multiple elements"
  }

  const DiagramHead: string :=
    "Create a clean, educational math diagram for a Grade 9 geometry question. \n"
    + "The diagram should be "
  const DiagramTail: string :=
    ".\n"
    + "Style: Black lines on white background, clear labels, professional educational diagram.\n"
    + "Include angle measurements, length labels, and geometric shapes as described in the question.\n"
    + "Make it suitable for a math textbook - clear, precise, and easy to understand."

  /** `generateDiagramPrompt(questionNumber, questionText, concept)`: the detail tier and the
    * concept are spliced into a fixed request. */
  function GenerateDiagramPrompt(questionNumber: int, questionText: string, concept: string): (r: string)
    ensures Contains(r, concept)
    ensures Contains(r, DiagramDifficulty(questionNumber))
  {
    var d := DiagramDifficulty(questionNumber);
    ContainsSelf(concept);
    ContainsAfter(DiagramHead + d + ", showing ", concept, concept);
    ContainsBefore(DiagramHead + d + ", showing " + concept, DiagramTail, concept);
    ContainsSelf(d);
    ContainsAfter(DiagramHead, d, d);
    ContainsBefore(DiagramHead + d, ", showing ", d);
    ContainsBefore(DiagramHead + d + ", showing ", concept, d);
    ContainsBefore(DiagramHead + d + ", showing " + concept, DiagramTail, d);
    DiagramHead + d + ", showing " + concept + DiagramTail
  }

  /** The tiers: up to 2, up to 4, up to 7, and beyond. */
  lemma DiagramTiers(n: int)
    ensures n <= 2 ==> DiagramDifficulty(n) == "simple and clear"
    ensures 2 < n <= 4 ==> DiagramDifficulty(n) == "moderately detailed"
    ensures 4 < n <= 7 ==> DiagramDifficulty(n) == "detailed with measurements"
    ensures 7 < n ==> DiagramDifficulty(n) == "complex with multiple elements"
  {
  }

  /** The question text is never consulted. */
  lemma DiagramPromptIgnoresQuestionText(n: int, a: string, b: string, concept: string)
    ensures GenerateDiagramPrompt(n, a, concept) == GenerateDiagramPrompt(n, b, concept)
  {
  }
}
