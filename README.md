# EQAO practice-test generator: a Dafny model of its decision-making core

This project models, in Dafny, the parts of the EQAO practice-test application that make decisions.

**The generation pipeline**
- A source question is classified into one of ten categories.
- A system prompt is composed for that category.
- The chat model's reply (given here as a value) is turned into ten numbered questions. The text is cleaned of LaTeX, missing fields fall back, some questions get a diagram, and the batch is validated.
- The diagram request is assembled from facts pulled out of the question text: shapes, the diameter with its unit, and the angles.

**The generate endpoint**
- Admin gate.
- Question-length checks.
- Answer extraction with three patterns and a sentinel.
- The answer-length check and the saved-count check.
- Classification of error messages.

**Utilities**
- Answer grading: `evaluateAnswer`, `normalizeAnswer`, `calculateScore`.
- Form validators and the retry helper.

**The three list pages**
- The same-day label "Test {day} #n".
- Score badges.
- The first submitted attempt for a test.
- The attempt history and the card preview.
- The delete handlers, which filter the in-memory list.

One module per source file:

| module | file | source |
|---|---|---|
| `QuestionTypeDetector` | question_type_detector.dfy | lib/ai/question-type-detector.ts |
| `PromptTemplates` | prompt_templates.dfy | lib/ai/prompt-templates.ts |
| `QuestionGenerator` | question_generator.dfy | lib/ai/question-generator.ts |
| `LatexCleanup` | latex_cleanup.dfy | `cleanLaTeX` in lib/ai/question-generator.ts; the page copies are the same |
| `ImageGenerator` | image_generator.dfy | lib/ai/image-generator.ts |
| `AnswerPatterns` | answer_patterns.dfy | the answer-extraction regular expressions |
| `GenerateRoute` | generate_route.dfy | app/api/tests/generate/route.ts |
| `Evaluation` | evaluation.dfy | lib/utils/evaluation.ts |
| `Validation` | validation.dfy | lib/utils/validation.ts |
| `Retry` | retry.dfy | lib/utils/retry.ts |
| `ListPages` | list_pages.dfy | what the three list pages share |
| `AttemptsPage` | attempts_page.dfy | app/admin/attempts/page.tsx |
| `CandidateDashboard` | candidate_dashboard.dfy | app/candidate/dashboard/page.tsx |
| `TestsPage` | tests_page.dfy | app/admin/tests/page.tsx |

Shared helpers live in `Wrappers` (Option/Result), `Strings`, `Seqs` and `Leftmost`.
- `Strings`: JavaScript white space, ASCII lower-casing, `trim`, `\s+` collapsing, substrings and decimal numerals.
- `Seqs`: filter, find, findIndex and indexed map.
- `Leftmost`: the leftmost-match search that `String.prototype.match` performs.

**Form of the model**
- Pure code becomes functions and lemmas.
- Code that reassigns locals becomes methods with loops or branches, each proved equal to the function that specifies it:
  - the angle `forEach`;
  - `let diameter`/`unit`;
  - the embedded-answer `let`;
  - the image `let`;
  - the required-field `for` loop;
  - the `map` over the questions;
  - the route's `answerMatch`/`source_answer`;
  - the `retry` loop.
- The page state that the delete handlers replace is a class (`Dashboard`, `TestList`) whose methods declare `modifies this`.

**Abstractions**
- Every regular expression is a hand-written matcher:
  - the same alternatives in the same order;
  - the same greedy runs;
  - leftmost position first;
  - `/i` folds ASCII letters only.
- Outside effects are parameters:
  - the admin check, the body, the vision call, the chat call, the image service, downloads, the 25 s/15 s timeouts and the database;
  - each awaited call is given as the outcome it produced (a value, absence, or a thrown `Error`/non-`Error`);
  - the body is a JSON body with string or absent fields, a text form, an image form whose bytes may fail to read, or a body whose `request.json()`/`request.formData()` threw.
- `parseFloat` is an abstract function `string -> Option<real>`.
- `created_at` is a pair (day key, timestamp).

**Behaviour of the code worth knowing**
- `getDifficultyLevel` (lib/ai/question-generator.ts:318-323) returns its argument in every branch, although the comment at line 330 calls it the correct level for the question number. The difficulty is therefore the question number, and that number is the model's `question_number` whenever it is truthy (line 329).
- `cleanLaTeX` (lib/ai/question-generator.ts:283-311) is not idempotent: the `\text{…}` pass at line 301 runs before the `\{` pass at line 303. `LatexCleanup.CleanLaTeXNotIdempotent` exhibits `\text\{x}`: one pass gives `\text{x}` and a second pass gives `x`.
- `retry` waits `delay * attempt` (lib/utils/retry.ts:20), a linear wait, although the comment at line 19 says "exponential backoff".
- The route accepts questions of up to 10000 characters (app/api/tests/generate/route.ts:115); `validateTestInput` accepts up to 5000 (lib/utils/validation.ts:35).
- The unit alternation `(cm|m|meters?|…)` at lib/ai/image-generator.ts:30 captures `m` for "meters", because `m` is tried before `meters?`.
- Extraction pattern 1 (app/api/tests/generate/route.ts:126) captures `is` from "The answer is 42", so pattern 3 at line 133 is reached only through "correct", as `AnswerPatterns.ValueAfterIsNeedsCorrect` states.
- Equal normalized answers are rejected when both trimmed answers parse as numbers that are not close: the numeric branch at lib/utils/evaluation.ts:23-26 decides before the normalized comparison at line 32.
- The score badge is green from 8 on the admin attempts page (app/admin/attempts/page.tsx:82) and from 7 on the candidate dashboard (app/candidate/dashboard/page.tsx:311).

## Model

| member | source | states |
|---|---|---|
| QuestionTypeDetector.Hits | lib/ai/question-type-detector.ts:76-82 | a keyword is counted exactly when it is in the list and occurs in the text |
| QuestionTypeDetector.Dedup | lib/ai/question-type-detector.ts:127 | the result has the same members as the input and no duplicates |
| QuestionTypeDetector.DetectQuestionType | lib/ai/question-type-detector.ts:23-129 | hasVisual iff an image or a visual word in the lower-cased text; keywords distinct, exactly the chosen category's keywords that occur in the lower-cased text |
| QuestionTypeDetector.HasVisualRule | lib/ai/question-type-detector.ts:27-33 | the visual flag holds iff hasImage or the text contains diagram, graph, table, chart, figure or shown |
| QuestionTypeDetector.NoMatchIsMixed | lib/ai/question-type-detector.ts:85-87 | text that matches no list gives mixed, "general mathematics" and no keywords |
| QuestionTypeDetector.MixedWithoutHits | lib/ai/question-type-detector.ts:84-121 | all seven counts zero gives the mixed default |
| QuestionTypeDetector.MixedHasNoKeywords | lib/ai/question-type-detector.ts:123-128 | whenever the result is mixed its keyword list is empty |
| QuestionTypeDetector.Priority | lib/ai/question-type-detector.ts:89-100 | visual plus a geometry hit gives geometry_with_diagram; otherwise any graph hit gives graph |
| QuestionTypeDetector.Thresholds | lib/ai/question-type-detector.ts:101-121 | after the first three branches: geometry needs more than 2 hits, algebra and fractions more than 1, exponents and percentage at least 1; mixed exactly when all of these fail |
| QuestionTypeDetector.CategoryThresholds | lib/ai/question-type-detector.ts:89-121 | the same thresholds on the decision chain, which never yields equations or number_operations |
| QuestionTypeDetector.Category | lib/ai/question-type-detector.ts:84-121 | the if/else chain on the seven hit counts; its thresholds and priority are stated by `Priority`, `Thresholds`, `CategoryThresholds` and `NeverEquationsOrNumberOperations` |
| QuestionTypeDetector.NeverEquationsOrNumberOperations | lib/ai/question-type-detector.ts:84-121 | the result type is never equations or number_operations |
| QuestionTypeDetector.DependsOnLowerOnly | lib/ai/question-type-detector.ts:24 | two texts with the same lower-cased form give the same analysis |
| QuestionTypeDetector.ExampleOfLowered | lib/ai/question-type-detector.ts:109-116 | a text over the example's alphabet with '/' and '^' and no image is exponents: one fraction hit is not enough |
| QuestionTypeDetector.Example | lib/ai/question-type-detector.ts:23-129 | "What is (2/3)^2?" without an image is classified exponents |
| QuestionTypeDetector.ExampleOneFraction | lib/ai/question-type-detector.ts:61-63 | over that alphabet, '/' is the only fraction keyword that can occur |
| PromptTemplates.PromptStartsWithBase | lib/ai/prompt-templates.ts:27-132 | every returned prompt starts with the shared base block |
| PromptTemplates.IgnoresHasImage | lib/ai/prompt-templates.ts:6-132 | the prompt does not depend on hasImage |
| PromptTemplates.GetSystemPromptForType | lib/ai/prompt-templates.ts:6-132 | `getSystemPromptForType`; `PromptStartsWithBase`, `IgnoresHasImage`, `NumberCategoriesShareOnePrompt`, `DefaultIsGeneral` and `PromptStatesBandsAndCount` state its contract |
| PromptTemplates.NumberCategoriesShareOnePrompt | lib/ai/prompt-templates.ts:106-119 | fractions, exponents, percentage and number_operations get the identical prompt |
| PromptTemplates.DefaultIsGeneral | lib/ai/prompt-templates.ts:121-131 | equations and mixed get the base block plus the general-mathematics block |
| PromptTemplates.PromptStatesBandsAndCount | lib/ai/prompt-templates.ts:19-25 | every prompt contains the four band lines and "exactly 10 questions" |
| PromptTemplates.GenerateDiagramPrompt | lib/ai/prompt-templates.ts:138-154 | the diagram prompt contains the concept and the tier phrase |
| PromptTemplates.DiagramTiers | lib/ai/prompt-templates.ts:143-147 | ≤2 simple and clear, ≤4 moderately detailed, ≤7 detailed with measurements, else complex with multiple elements |
| PromptTemplates.DiagramPromptIgnoresQuestionText | lib/ai/prompt-templates.ts:138-153 | the diagram prompt is the same for any question text |
| QuestionGenerator.ExtractEmbeddedAnswer | lib/ai/question-generator.ts:25-37 | the reassigned `extractedAnswer` ends equal to the embedded-answer function |
| QuestionGenerator.EmbeddedAnswerCases | lib/ai/question-generator.ts:25-37 | extraction runs only for an empty or placeholder answer; pattern 1 before pattern 2; otherwise the answer is left as given |
| QuestionGenerator.EmbeddedAnswer | lib/ai/question-generator.ts:25-37 | the extracted answer; `EmbeddedAnswerCases` states when extraction runs and which pattern wins, `ExtractEmbeddedAnswer` ties the `let` to it |
| QuestionGenerator.ExtractedAnswerIsQuoted | lib/ai/question-generator.ts:91 | an answer found by either pattern is quoted in the user prompt |
| QuestionGenerator.DifficultyLevel | lib/ai/question-generator.ts:318-323 | the difficulty level equals the question number in every branch |
| QuestionGenerator.NumberingRule | lib/ai/question-generator.ts:329-331 | number is the model's when truthy, else index+1; difficulty equals the number; the model's difficulty is never read |
| QuestionGenerator.QuestionNumber | lib/ai/question-generator.ts:329 | `q.question_number \|\| index + 1`; `NumberingRule` states the truthy and fallback cases |
| QuestionGenerator.FieldFallbacks | lib/ai/question-generator.ts:388-395 | text from question_text, then question, then ''; answer from correct_answer, then answer, then ''; each cleaned; explanation only when truthy |
| QuestionGenerator.FormattedIsClean | lib/ai/question-generator.ts:333 | the formatted text and answer are trimmed, single-spaced and free of escaped brackets |
| QuestionGenerator.FormatQuestion | lib/ai/question-generator.ts:328-396 | one entry of the `map`; `NumberingRule`, `FieldFallbacks`, `FormattedIsClean` and `ImageRule` state its fields |
| QuestionGenerator.ImageForQuestion | lib/ai/question-generator.ts:336-383 | the reassigned `questionImageUrl` ends equal to the slot-image function |
| QuestionGenerator.ImageRule | lib/ai/question-generator.ts:338-383 | an image only when needed, not timed out and generated; then the download, or on download failure the raw URL |
| QuestionGenerator.SlotImage | lib/ai/question-generator.ts:336-383 | the image of one question; `ImageRule` states the need, timeout, generation and download order, `ImageForQuestion` ties the `let` to it |
| QuestionGenerator.NeedsImage | lib/ai/question-generator.ts:338-341 | the needs-image disjunction; `ImageRule` and `LateQuestionsNoImage` state it |
| QuestionGenerator.LateQuestionsNoImage | lib/ai/question-generator.ts:338-341 | without geometry type or visual flag, questions numbered above 7 get no image |
| QuestionGenerator.FormatAll | lib/ai/question-generator.ts:327-397 | one formatted question per entry, same length and order |
| QuestionGenerator.FormatQuestions | lib/ai/question-generator.ts:327-397 | the mapping loop produces exactly the formatted list |
| QuestionGenerator.CheckRequiredFields | lib/ai/question-generator.ts:400-404 | the loop accepts iff every question has non-empty text and answer |
| QuestionGenerator.HandleCompletion | lib/ai/question-generator.ts:266-414 | the reply handling equals the batch function; the warning fires iff fewer than 5 distinct trimmed lower-cased answers, and the batch is returned anyway |
| QuestionGenerator.Batch | lib/ai/question-generator.ts:266-419 | the reply handling; `BatchRule` states success, the count and the failure messages, `HandleCompletion` ties the method to it |
| QuestionGenerator.BatchRule | lib/ai/question-generator.ts:276-419 | success iff content with exactly 10 entries all having text and answer; then the 10 formatted entries in order; every failure message has the "Failed to generate questions: " prefix; a wrong count reports the count |
| QuestionGenerator.GenerateQuestions | lib/ai/question-generator.ts:10-421 | the whole call equals its specification function and warns as above |
| QuestionGenerator.Generate | lib/ai/question-generator.ts:10-421 | `generateQuestions`; `BatchRule` states its result, `GenerateQuestions` ties the method to it |
| LatexCleanup.MatchAt | lib/ai/question-generator.ts:287-307 | a match of any pass consumes at least two characters and stays within the text |
| LatexCleanup.CleanLaTeX | lib/ai/question-generator.ts:284 | the empty string is returned unchanged |
| LatexCleanup.CleanLaTeXWhiteSpace | lib/ai/question-generator.ts:309-310 | the output has no white space at either end and only single plain spaces inside |
| LatexCleanup.CleanLaTeXNoEscapedBracket | lib/ai/question-generator.ts:305-307 | no backslash is directly followed by ( ) [ or ] |
| LatexCleanup.CleanLaTeXPlain | lib/ai/question-generator.ts:283-311 | text without backslashes that is already trimmed and single-spaced is returned unchanged |
| LatexCleanup.CleanLaTeXIdempotentWithoutBackslash | lib/ai/question-generator.ts:283-311 | cleaning twice equals cleaning once when the first result has no backslash |
| LatexCleanup.CleanLaTeXNotIdempotent | lib/ai/question-generator.ts:301-304 | for `\text\{x}` the first pass gives `\text{x}` and the second `x`, so cleaning is not idempotent |
| ImageGenerator.UnitAt | lib/ai/image-generator.ts:30 | a captured unit is a prefix of the text and one of the listed spellings |
| ImageGenerator.FindMeasure | lib/ai/image-generator.ts:30-32 | a match yields a digit run and a listed unit |
| ImageGenerator.FirstInRange | lib/ai/image-generator.ts:44-52 | keeps exactly the numbers in 1..180, each once |
| ImageGenerator.Labels | lib/ai/image-generator.ts:49 | one `N°` label per number, in order |
| ImageGenerator.CollectAngleLabels | lib/ai/image-generator.ts:40-62 | the forEach loop with its seen set yields exactly the angle-label function |
| ImageGenerator.AngleValuesShape | lib/ai/image-generator.ts:41-59 | labelled numbers are distinct, in 1..180, from the degree matches or the base angle, degree matches in first-appearance order |
| ImageGenerator.AngleLabelsShape | lib/ai/image-generator.ts:53-62 | labels are distinct; x is present iff the text names angle x, and then it is last |
| ImageGenerator.DegreeNumbers | lib/ai/image-generator.ts:34 | the numbers of the global `(\d+)\s*degrees?` matches, in order; `AngleValuesShape` states what is kept of them |
| ImageGenerator.BaseAngle | lib/ai/image-generator.ts:36 | the number of the leftmost base-angle match; `AngleValuesShape` states when it is used |
| ImageGenerator.AngleValues | lib/ai/image-generator.ts:41-59 | the labelled numbers; `AngleValuesShape` states distinctness, range and order |
| ImageGenerator.AngleLabels | lib/ai/image-generator.ts:40-62 | the angle labels; `AngleLabelsShape` states distinctness and the place of x, `CollectAngleLabels` ties the loop to it |
| ImageGenerator.ChooseDiameter | lib/ai/image-generator.ts:64-74 | the reassigned diameter and unit equal the diameter function |
| ImageGenerator.DiameterShape | lib/ai/image-generator.ts:65-74 | diameter beats radius; a radius r gives 2·r; the unit comes from the match, 'cm' only when there is none |
| ImageGenerator.DiameterAndUnit | lib/ai/image-generator.ts:64-74 | the diameter label and unit; `DiameterShape` and `MetersCapturedAsM` state it, `ChooseDiameter` ties the `let`s to it |
| ImageGenerator.MetersCapturedAsM | lib/ai/image-generator.ts:30 | "meter…" after a number is captured as the unit `m` |
| ImageGenerator.PromptQuotesMeasure | lib/ai/image-generator.ts:85 | the prompt contains `"<diameter> <unit>"` |
| ImageGenerator.PromptListsAngles | lib/ai/image-generator.ts:86-94 | a non-empty list is in the prompt joined by ", " and each angle occurs; an empty list gives the `One angle labeled "x"` line |
| ImageGenerator.DiagramPrompt | lib/ai/image-generator.ts:77-99 | the image request; `PromptQuotesMeasure` and `PromptListsAngles` state what it contains |
| ImageGenerator.ReplyUrl | lib/ai/image-generator.ts:109-115 | a URL is returned iff the service produced a non-empty one |
| ImageGenerator.GenerateQuestionDiagram | lib/ai/image-generator.ts:10-121 | the method equals the diagram function |
| ImageGenerator.DiagramComesFromService | lib/ai/image-generator.ts:17-21 | a diagram exists iff the gate passes and the service returns a non-empty URL for this prompt; otherwise undefined |
| ImageGenerator.WantsDiagram | lib/ai/image-generator.ts:17-21 | the gate: the geometry-with-diagram type or a shape word; `DiagramComesFromService` states its effect |
| ImageGenerator.Diagram | lib/ai/image-generator.ts:10-121 | `generateQuestionDiagram`; `DiagramComesFromService` states its result, `GenerateQuestionDiagram` ties the method to it |
| AnswerPatterns.SearchIsLeftmost | app/api/tests/generate/route.ts:126 | a match exists iff some position matches, and the one returned is at the leftmost matching position |
| AnswerPatterns.Search | app/api/tests/generate/route.ts:126-133 | `String.prototype.match` for one pattern; `SearchIsLeftmost`, `SearchShape` and `CapturedIsTrimmed` state its contract |
| AnswerPatterns.SearchShape | app/api/tests/generate/route.ts:126-133 | the choice pattern captures one letter A-D; the others capture an alphanumeric run with an optional decimal part |
| AnswerPatterns.CapturedIsTrimmed | app/api/tests/generate/route.ts:135 | a captured value has nothing for `trim` to remove |
| AnswerPatterns.ValueAfterIsNeedsCorrect | app/api/tests/generate/route.ts:131-133 | where pattern 3 matches but pattern 1 does not, the keyword there is "correct" |
| AnswerPatterns.AnswerIsWord | app/api/tests/generate/route.ts:126 | after a lead without keywords, "answer is…" makes pattern 1 capture `is` |
| AnswerPatterns.AnswerIsFortyTwo | app/api/tests/generate/route.ts:126 | on "The answer is 42" pattern 1 captures `is` |
| Leftmost.FirstIsLeftmost | app/api/tests/generate/route.ts:126 | the search returns the match at the smallest matching position |
| GenerateRoute.Status | app/api/tests/generate/route.ts:10-190 | 403 for the admin refusal, 400 for input refusals, 500 for database refusals |
| GenerateRoute.Caught | app/api/tests/generate/route.ts:204-225 | a thrown value gives a 500 with the classified error and the raw message |
| GenerateRoute.ClassificationRule | app/api/tests/generate/route.ts:208-217 | OpenAI or API first, then database or Supabase, else the raw message; a non-Error gives the generic text |
| GenerateRoute.ClassifyError | app/api/tests/generate/route.ts:206-217 | the error text of the 500 reply; `ClassificationRule` and `AIServiceWins` state it |
| GenerateRoute.AIServiceWins | app/api/tests/generate/route.ts:210-213 | a message mentioning both API and database is an AI-service error |
| GenerateRoute.TruthyOrNone | app/api/tests/generate/route.ts:98 | `x \|\| undefined` gives the string itself when it is non-empty and nothing otherwise |
| GenerateRoute.NonAdminRefused | app/api/tests/generate/route.ts:10-16 | a non-admin gets 403 whatever the body and whatever else happens |
| GenerateRoute.UnreadableBodyCaught | app/api/tests/generate/route.ts:27-40 | a body whose `request.json()`/`request.formData()` throws, or an image whose `arrayBuffer()` throws, is answered by the outer `catch` with a 500 |
| GenerateRoute.ReadBody | app/api/tests/generate/route.ts:19-105 | reading the body; `JsonBodyTakenAsIs` and `UnreadableBodyCaught` state its cases |
| GenerateRoute.JsonBodyTakenAsIs | app/api/tests/generate/route.ts:100-105 | a JSON body's fields are used as given; a missing question is refused as too short |
| GenerateRoute.LengthRefusal | app/api/tests/generate/route.ts:107-120 | no refusal iff the question is present, at least 10 trimmed characters and at most 10000 in all |
| GenerateRoute.QuestionLengthRule | app/api/tests/generate/route.ts:108-120 | under 10 trimmed characters gives QuestionTooShort, over 10000 gives QuestionTooLong, both 400 |
| GenerateRoute.ResolveSourceAnswer | app/api/tests/generate/route.ts:124-141 | the reassigned `source_answer` ends equal to the final-answer function |
| GenerateRoute.SuppliedAnswerKept | app/api/tests/generate/route.ts:124 | a supplied answer with text is not overwritten |
| GenerateRoute.ExtractionOrder | app/api/tests/generate/route.ts:124-136 | without a usable answer: pattern 1, then 2, then 3, else 'See question text' |
| GenerateRoute.ExtractedAnswer | app/api/tests/generate/route.ts:124-136 | the three patterns then the sentinel; `ExtractionOrder` and `CapturedNonBlank` state it |
| GenerateRoute.CapturedNonBlank | app/api/tests/generate/route.ts:135 | a captured answer is trimmed, non-blank and not the placeholder |
| GenerateRoute.AnswerPassedOn | app/api/tests/generate/route.ts:139-156 | the answer passed on is never empty or blank, and never triggers the generator's own extraction unless the caller supplied the placeholder |
| GenerateRoute.AnswerNonBlank | app/api/tests/generate/route.ts:138-141 | the final answer has a non-space character |
| GenerateRoute.FinalAnswer | app/api/tests/generate/route.ts:124-141 | the resolved answer; `SuppliedAnswerKept`, `AnswerNonBlank`, `ResolvedNotPlaceholder` and `AnswerPassedOn` state it, `ResolveSourceAnswer` ties the method to it |
| GenerateRoute.ResolvedNotPlaceholder | app/api/tests/generate/route.ts:153 | the final answer is the placeholder only if the caller supplied it |
| GenerateRoute.LongAnswerRefused | app/api/tests/generate/route.ts:143-148 | an answer over 500 characters is refused (400) |
| GenerateRoute.ShortSaveRefused | app/api/tests/generate/route.ts:185-190 | a saved count other than 10 gives QuestionsNotSaved with 500 |
| GenerateRoute.SavedCountRule | app/api/tests/generate/route.ts:185-203 | every success reply lists exactly 10 saved questions |
| GenerateRoute.LengthCapsDiffer | app/api/tests/generate/route.ts:115-120 | a question of 5001..10000 characters passes the route but fails `validateTestInput` |
| GenerateRoute.Post | app/api/tests/generate/route.ts:7-227 | the handler equals its specification function |
| GenerateRoute.Handle | app/api/tests/generate/route.ts:7-227 | the handler; `NonAdminRefused`, `UnreadableBodyCaught`, `QuestionLengthRule`, `LongAnswerRefused`, `ShortSaveRefused` and `SavedCountRule` state its replies, `Post` ties the method to it |
| GenerateRoute.Validated | app/api/tests/generate/route.ts:107-120 | the guards, then the rest, equal the submission's processing |
| GenerateRoute.Answered | app/api/tests/generate/route.ts:124-156 | answer resolution, its length check and the generation call equal their function |
| GenerateRoute.Store | app/api/tests/generate/route.ts:158-203 | the database steps equal the save function |
| Evaluation.NumericVerdict | lib/utils/evaluation.ts:19-26 | a verdict exists iff both sides parse, and it is the closeness of the two values |
| Evaluation.CalculateScore | lib/utils/evaluation.ts:63-67 | the score is at most the number of responses |
| Evaluation.ScoreCountsCorrect | lib/utils/evaluation.ts:63-67 | the score is the number of correct responses; all correct iff full score; none iff zero |
| Evaluation.EvaluateReflexive | lib/utils/evaluation.ts:10-16 | every answer is accepted against itself |
| Evaluation.ExactBranchIgnoresPaddingAndCase | lib/utils/evaluation.ts:10-16 | answers equal after trimming and lower-casing are accepted whatever white space pads them |
| Evaluation.EvaluateIgnoresPadding | lib/utils/evaluation.ts:10-11 | surrounding white space never changes the verdict |
| Evaluation.EvaluateSymmetric | lib/utils/evaluation.ts:5-46 | the verdict is symmetric in the two answers |
| Evaluation.EvaluateAnswer | lib/utils/evaluation.ts:5-46 | `evaluateAnswer`; `EvaluateReflexive`, `EvaluateIgnoresPadding`, `EvaluateSymmetric`, `EqualNormalizedFormsAccepted`, `NumericBranchDecidesFirst` and `RejectedByNumericBranch` state its contract |
| Evaluation.NumericVerdictSymmetric | lib/utils/evaluation.ts:19-26 | the numeric comparison is symmetric |
| Evaluation.EqualNormalizedFormsAccepted | lib/utils/evaluation.ts:29-34 | equal normalized forms are accepted when one trimmed side does not parse |
| Evaluation.NumericBranchDecidesFirst | lib/utils/evaluation.ts:18-34 | equal normalized forms are rejected when both raw sides parse to values that are not close |
| Evaluation.RejectedByNumericBranch | lib/utils/evaluation.ts:18-26 | two trimmed answers that differ even ignoring case, both parseable and not close, are rejected |
| Evaluation.DroppedCharacter | lib/utils/evaluation.ts:52-58 | a non-numeric, non-space character does not change the normalized form |
| Evaluation.NormalizedIsNumeric | lib/utils/evaluation.ts:52-58 | the normalized form holds only digits, '.' and '-' |
| Evaluation.NormalizeIdempotent | lib/utils/evaluation.ts:52-58 | normalizing twice is normalizing once |
| Evaluation.NormalizeAnswer | lib/utils/evaluation.ts:52-58 | `normalizeAnswer`; `NormalizedIsNumeric`, `DroppedCharacter`, `NormalizeIdempotent` and `NumericUnchanged` state its contract |
| Evaluation.NumericUnchanged | lib/utils/evaluation.ts:52-58 | a string of digits, '.' and '-' is its own normalized form |
| Validation.EmailShape | lib/utils/validation.ts:5-8 | accepted iff no white space, exactly one '@' with something before it, and a '.' in the domain that is neither its first nor its last character |
| Validation.ValidateEmail | lib/utils/validation.ts:5-8 | the email regex; `EmailShape` characterizes it in both directions |
| Validation.ValidatePassword | lib/utils/validation.ts:10-15 | valid iff at least 6 characters, else the fixed message |
| Validation.TestInputRule | lib/utils/validation.ts:17-50 | valid iff all four guards pass; otherwise the first failing guard's message, in order |
| Validation.ValidateTestInput | lib/utils/validation.ts:17-50 | `validateTestInput`; `TestInputRule` and `ShortQuestionRefused` state its contract |
| Validation.ShortQuestionRefused | lib/utils/validation.ts:21-26 | a question under 10 characters is refused whatever the answer |
| Validation.AnswerRule | lib/utils/validation.ts:52-62 | valid iff the answer has a non-space character and at most 500 characters; each failure has its message |
| Validation.ValidateAnswer | lib/utils/validation.ts:52-62 | `validateAnswer`; `AnswerRule` states its contract |
| Validation.SanitizedIsNormal | lib/utils/validation.ts:64-66 | the output is trimmed, single-spaced with plain spaces, and keeps exactly the input's non-space characters |
| Validation.TrimKeepsNonSpace | lib/utils/validation.ts:65 | trimming removes only white space |
| Validation.SanitizeIdempotent | lib/utils/validation.ts:64-66 | sanitizing twice is sanitizing once |
| Validation.SanitizeInput | lib/utils/validation.ts:64-66 | `sanitizeInput`; `SanitizedIsNormal` and `SanitizeIdempotent` state its contract |
| Strings.TrimIsTrimmed | lib/utils/validation.ts:65 | `trim` leaves no white space at either end and never lengthens the text |
| Strings.TrimEmptyIffBlank | lib/utils/validation.ts:53 | a string trims to empty iff every character is white space |
| Strings.CollapseNormal | lib/utils/validation.ts:65 | `replace(/\s+/g, ' ')` leaves no double space and only plain spaces |
| Retry.LastErrorMessage | lib/utils/retry.ts:16 | a thrown Error keeps its message; anything else becomes 'Unknown error' |
| Retry.Waits | lib/utils/retry.ts:18-21 | the k-th wait is delay·k |
| Retry.Attempts | lib/utils/retry.ts:12 | attempts are numbered 1, 2, … in order |
| Retry.RunRetry | lib/utils/retry.ts:5-26 | at most maxAttempts calls; the first success is returned with no further call; waits delay·k only between attempts; the last error or 'Max retry attempts reached' when nothing succeeds |
| ListPages.InsertByTime | app/admin/attempts/page.tsx:74 | insertion adds exactly one element |
| ListPages.SortByTime | app/admin/attempts/page.tsx:74 | sorting keeps the length |
| ListPages.SortShape | app/admin/attempts/page.tsx:74 | the sort is a permutation of its input and ordered by time |
| ListPages.SortStable | app/admin/attempts/page.tsx:74 | tests created at the same time keep their input order, as the stable `Array.prototype.sort` keeps them |
| ListPages.RankBounds | app/admin/attempts/page.tsx:77 | a listed test's number is between 1 and the number of same-day tests |
| ListPages.RankPlace | app/admin/attempts/page.tsx:77 | the number is one more than the test's position in the sorted same-day list |
| ListPages.Rank | app/admin/attempts/page.tsx:69-77 | the same-day number; `RankBounds`, `RankPlace`, `RanksDistinct`, `EarlierRanksFirst` and `OtherDaysIgnored` state its contract |
| ListPages.RanksDistinct | app/admin/attempts/page.tsx:69-77 | two same-day tests with different ids get different numbers |
| ListPages.EarlierRanksFirst | app/admin/attempts/page.tsx:69-77 | of two same-day tests the earlier gets the smaller number |
| ListPages.OtherDaysIgnored | app/admin/attempts/page.tsx:69-73 | tests from other days do not change a test's number |
| ListPages.LabelsDistinct | app/admin/attempts/page.tsx:78 | two same-day tests with different ids get different labels |
| ListPages.UnknownIdShortened | app/admin/attempts/page.tsx:62-63 | an unknown id is shown as its first 8 characters and "..." |
| ListPages.KnownIdLabelled | app/admin/attempts/page.tsx:61-78 | a known id is shown as "Test {day} #n" |
| ListPages.DisplayName | app/candidate/dashboard/page.tsx:143-158 | the label of a listed test; `LabelsDistinct` states it |
| ListPages.DisplayNameForId | app/admin/attempts/page.tsx:61-78 | the label for a test id; `UnknownIdShortened` and `KnownIdLabelled` state it |
| ListPages.Badge | app/admin/attempts/page.tsx:81-85 | green iff score ≥ good, yellow iff fair ≤ score < good, red iff score < fair |
| ListPages.BadgeMonotone | app/admin/attempts/page.tsx:81-85 | a higher score never gets a worse colour |
| ListPages.FailureMessage | app/candidate/dashboard/page.tsx:45-55 | a non-empty server error or thrown message is kept, an empty one gives the fixed fallback; never empty |
| ListPages.WithoutId | app/candidate/dashboard/page.tsx:49 | keeps exactly the entries whose id differs from the deleted one |
| ListPages.WithoutIdAppend | app/candidate/dashboard/page.tsx:49 | the filter distributes over concatenation, so order is kept |
| ListPages.WithoutIdLength | app/admin/tests/page.tsx:66 | nothing is removed when no entry has the id, something when one has |
| ListPages.WithoutSoleHolder | app/admin/tests/page.tsx:66 | removing the only holder of an id leaves the others in order |
| AttemptsPage.ScoreColor | app/admin/attempts/page.tsx:81-85 | green iff ≥ 8, yellow iff 5..7, red iff < 5 |
| CandidateDashboard.Dashboard.DeleteAttempt | app/candidate/dashboard/page.tsx:31-59 | cancel changes nothing; success replaces the attempts by the filtered list; failure keeps them and sets the error; deleting is cleared |
| CandidateDashboard.Dashboard.AttemptForTest | app/candidate/dashboard/page.tsx:89-91 | the first attempt for the test with a truthy submitted_at, or none iff there is none |
| CandidateDashboard.Dashboard.History | app/candidate/dashboard/page.tsx:298-299 | lists exactly the submitted attempts |
| CandidateDashboard.Dashboard.HistoryLabel | app/candidate/dashboard/page.tsx:306 | the test column of a history row: `DisplayNameForId`, whose contract `UnknownIdShortened` and `KnownIdLabelled` state |
| CandidateDashboard.Dashboard.CardTitle | app/candidate/dashboard/page.tsx:143-158 | the card title: `DisplayName`, whose contract `LabelsDistinct` states |
| CandidateDashboard.ScoreTone | app/candidate/dashboard/page.tsx:311-315 | green iff ≥ 7, yellow iff 5..6, red iff < 5 |
| CandidateDashboard.BadgesDisagreeAtSeven | app/candidate/dashboard/page.tsx:311-315 | the dashboard and admin badges differ exactly at score 7 |
| CandidateDashboard.PreviewShape | app/candidate/dashboard/page.tsx:219 | the preview is at most the first 100 cleaned characters followed by "..." |
| CandidateDashboard.Preview | app/candidate/dashboard/page.tsx:219 | the card preview; `PreviewShape` states it |
| CandidateDashboard.DeletedAttemptsGone | app/candidate/dashboard/page.tsx:49 | after a delete the list and the history keep exactly the other attempts |
| TestsPage.TestList.Delete | app/admin/tests/page.tsx:48-72 | cancel or failure leaves the list unchanged; success removes exactly the tests with that id; a failure sets the error |
| TestsPage.StoredAnswerShown | app/admin/tests/page.tsx:287 | for an answer stored by the route, the panel shows iff the answer is not 'See question text' |
| TestsPage.ShowsAnswer | app/admin/tests/page.tsx:287 | the panel condition; `StoredAnswerShown` states it for route-stored answers |
| TestsPage.TestList.CardTitle | app/admin/tests/page.tsx:104-119 | the card title: `DisplayName`, whose contract `LabelsDistinct` states |
| TestsPage.DeleteKeepsOthers | app/admin/tests/page.tsx:66 | with unique ids, deleting one test leaves all others in order |

## Left out

- I/O is left out. The admin check, the request body, the vision call, the chat call, the image service, the image download, the database writes, the dashboards' `fetchData`/`fetchTests` and confirmation dialogs are parameters or oracle outcomes. Their effects are not modelled.
- Concurrency is left out. `Promise.all` is modelled as a sequential map; each `Promise.race` timeout is a per-question flag.
- `JSON.parse` is left out: the parsed reply is a datatype. A `questions` field that is truthy but not an array is not represented.
- The vision text extraction of the route (app/api/tests/generate/route.ts:48-93) is left out. Only its outcome is modelled: text or a thrown error.
- Prompt prose is left out. Only its structural facts are modelled: the base block, the band lines, the count, the tiers, and the diagram labels.
- Console logging is left out.
- `downloadImageAsDataUrl` is an oracle outcome.
- Evaluation.EvaluateAnswer: `parseFloat` and the 0.001 tolerance use an abstract parser and closeness on reals. IEEE rounding is not modelled.
- Strings: lengths count code points, not UTF-16 code units. Only ASCII letters are lower-cased.
- ImageGenerator.DiameterAndUnit: the doubling of a radius is exact in the model. The source doubles a JavaScript double (lib/ai/image-generator.ts:71-72): it rounds digit runs above 2^53, prints `1e+21`-style exponent forms from 10^21 on, and gives `Infinity` for runs of about 309 digits.
- ListPages: `Date` parsing, `toISOString().split('T')[0]` and `getTime()` are replaced by each test's (day, time) pair.
- ListPages.EarlierRanksFirst, ListPages.KnownIdLabelled and TestsPage.DeleteKeepsOthers assume that test ids are unique. The ids are database keys.
- CandidateDashboard.Dashboard.DeleteAttempt does not model the `fetchData()` refresh after a successful delete. That refresh reloads `tests` and `attempts` from the server and may set the error.
- GenerateRoute.ReadBody: JSON fields that are present but not strings are not represented. In the source a truthy non-string `source_question` or `source_answer` makes `.trim` throw a TypeError (app/api/tests/generate/route.ts:108, 139), which the outer `catch` turns into a 500. A falsy non-string (`0`, `false`, `null`) `source_question` is refused as too short by `!source_question` (line 108), and a falsy `source_answer` goes to extraction (line 124).
- QuestionGenerator.FormatAll: fields of the model's reply that are present but not strings are not represented. In the source a truthy non-string field makes `cleanLaTeX` throw on `.replace` (lib/ai/question-generator.ts:333 for the text, 391 for the answer, 393 for the explanation).
- QuestionGenerator.NumberingRule: states the numbering and the difficulty only for an integer or absent `question_number`; the other values are described on the next line.
- QuestionGenerator.QuestionNumber: `question_number` is modelled as an integer or absent. Fractional, string and boolean values pass through `q.question_number || index + 1` (lib/ai/question-generator.ts:329) unmodelled. In the source such a value becomes the difficulty (lines 318-323) and meets the `questionNumber <= 7` gate at line 341 by JavaScript comparison: `2.5` and `"3"` pass it, and `"abc"` fails it because it compares as NaN.
- Retry.RunRetry: `maxAttempts` and `delay` are integers and must be passed; the defaults of 3 and 1000 (lib/utils/retry.ts:7-8) are not modelled. Fractional values are not represented: with `maxAttempts` 2.5 the source makes 2 calls and still waits `delay * 2` after the last one, because 2 < 2.5 (lines 12, 18).
- ListPages.FailureMessage models `data.error` only as a string. Other JSON values are not represented.
- Loading flags and rendering are left out.
- `hasCircle` in lib/ai/image-generator.ts is computed but never used, so it is not modelled.
- app/admin/generate-test/page.tsx is not part of this model. Its client-side length checks repeat the route's.
- The Supabase helpers, roles, middleware, the other API routes, and the type-only files are not part of this model.
