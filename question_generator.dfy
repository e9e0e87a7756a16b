/**
 * `generateQuestions`: a batch of ten practice questions built from a source question.  The
 * source question is classified, an embedded answer is looked for, the chat model is asked for
 * ten questions, and each entry of its reply is cleaned of LaTeX, numbered and, when it calls
 * for one, given a diagram.  The chat model, the image service, the download and the timers
 * are oracle parameters.
 */
module QuestionGenerator {

  import opened Wrappers
  import opened Strings
  import opened QuestionTypeDetector
  import PromptTemplates
  import LatexCleanup
  import AnswerPatterns
  import ImageGenerator
  import Seqs

  // ---------------------------------------------------------------------------------------
  // The request and the embedded answer
  // ---------------------------------------------------------------------------------------

  /** `TestGenerationRequest` */
  datatype GenerationRequest = GenerationRequest(
    sourceQuestion: string,
    sourceAnswer: string,
    explanation: Option<string>,
    sourceImageUrl: Option<string>)

  /** A JavaScript string value that is present and non-empty. */
  predicate Truthy(s: Option<string>) {
    s.Some? && s.value != ""
  }

  /** The placeholder answer meaning "look for the answer in the question". */
  const ExtractedFromQuestion: string := "Extracted from question"

  /** Extraction runs only for an empty answer or the placeholder. */
  predicate NeedsExtraction(sourceAnswer: string) {
    sourceAnswer == "" || sourceAnswer == ExtractedFromQuestion
  }

  /** The answer the request's prompt is built with. */
  function EmbeddedAnswer(sourceQuestion: string, sourceAnswer: string): string {
    if !NeedsExtraction(sourceAnswer) then sourceAnswer
    else
      match AnswerPatterns.Search(AnswerPatterns.ValueAfterKeyword, sourceQuestion)
      case Some(v) => Trim(v)
      case None =>
        match AnswerPatterns.Search(AnswerPatterns.ChoiceAfterKeyword, sourceQuestion)
        case Some(v) => Trim(v)
        case None => sourceAnswer
  }

  /** Step 3 of `generateQuestions`: the reassigned `extractedAnswer`. */
  method ExtractEmbeddedAnswer(sourceQuestion: string, sourceAnswer: string)
    returns (extractedAnswer: string)
    ensures extractedAnswer == EmbeddedAnswer(sourceQuestion, sourceAnswer)
  {
    extractedAnswer := sourceAnswer;
    if extractedAnswer == "" || extractedAnswer == ExtractedFromQuestion {
      var answerMatch := AnswerPatterns.Search(AnswerPatterns.ValueAfterKeyword, sourceQuestion);
      if answerMatch.Some? {
        extractedAnswer := Trim(answerMatch.value);
      } else {
        var mcAnswerMatch := AnswerPatterns.Search(AnswerPatterns.ChoiceAfterKeyword, sourceQuestion);
        if mcAnswerMatch.Some? {
          extractedAnswer := Trim(mcAnswerMatch.value);
        }
      }
    }
  }

  /** The prompt quotes an answer only when it is neither empty nor the placeholder. */
  function QuotedAnswer(extractedAnswer: string): Option<string> {
    if extractedAnswer != "" && extractedAnswer != ExtractedFromQuestion then Some(extractedAnswer)
    else None
  }

  // ---------------------------------------------------------------------------------------
  // The chat model's reply
  // ---------------------------------------------------------------------------------------

  /** One entry of the reply's question list, each field as given (`None`: absent or null). */
  datatype RawQuestion = RawQuestion(
    questionNumber: Option<int>,
    questionText: Option<string>,
    question: Option<string>,
    correctAnswer: Option<string>,
    answer: Option<string>,
    explanation: Option<string>,
    difficultyLevel: Option<int>)

  /** The parsed reply: an object with a `questions` array, a bare array, or anything else. */
  datatype ModelReply =
    | WithQuestions(items: seq<RawQuestion>)
    | BareArray(items: seq<RawQuestion>)
    | NoQuestions

  /**
    * What the chat call gives: the parsed reply, no content, or a thrown value (a failed call
    * or unparseable JSON), with its message when it is an `Error`.
    */
  datatype Completion = Content(reply: ModelReply) | NoContent | Failed(message: Option<string>)

  /** What the user prompt is built from (its prose is not modelled). */
  datatype UserPromptFacts = UserPromptFacts(
    analysis: QuestionTypeAnalysis,
    sourceQuestion: string,
    quotedAnswer: Option<string>,
    explanation: Option<string>,
    hasImage: bool)

  /** `parsed.questions || (Array.isArray(parsed) ? parsed : [])` */
  function QuestionList(reply: ModelReply): seq<RawQuestion> {
    match reply
    case WithQuestions(items) => items
    case BareArray(items) => items
    case NoQuestions => []
  }

  // ---------------------------------------------------------------------------------------
  // One question
  // ---------------------------------------------------------------------------------------

  /** `GeneratedQuestion` */
  datatype GeneratedQuestion = GeneratedQuestion(
    questionNumber: int,
    questionText: string,
    correctAnswer: string,
    difficultyLevel: int,
    explanation: Option<string>,
    questionImageUrl: Option<string>)

  /** `q.question_number || index + 1` */
  function QuestionNumber(q: RawQuestion, index: nat): int {
    if q.questionNumber.Some? && q.questionNumber.value != 0 then q.questionNumber.value
    else index + 1
  }

  /** `getDifficultyLevel`: every branch returns the number it is given. */
  function DifficultyLevel(questionNumber: int): (level: int)
    ensures level == questionNumber
  {
    if questionNumber <= 2 then questionNumber
    else if questionNumber <= 4 then questionNumber
    else if questionNumber <= 7 then questionNumber
    else questionNumber
  }

  /** `a || b || ''` over optional strings. */
  function FirstTruthy(a: Option<string>, b: Option<string>): string {
    if Truthy(a) then a.value else if Truthy(b) then b.value else ""
  }

  /** An image is attempted for the diagram type, for a visual source, and for the first seven
    * questions when the text names a shape. */
  predicate NeedsImage(analysis: QuestionTypeAnalysis, questionText: string, questionNumber: int) {
    analysis.qtype == GeometryWithDiagram || analysis.hasVisual
      || (ImageGenerator.HasShapeWord(Lower(questionText)) && questionNumber <= 7)
  }

  /** `downloadImageAsDataUrl` raced against its timer: a data URL, or a failure. */
  datatype Download = Downloaded(dataUrl: string) | DownloadFailed

  /** What happens to one question's image: the image service, whether the diagram's timer
    * wins the race, and the download. */
  datatype ImageSlot = ImageSlot(
    service: string -> ImageGenerator.ImageReply,
    timedOut: bool,
    download: Download)

  /** The image of one question. */
  function SlotImage(dx: ImageGenerator.DiagramTexts, analysis: QuestionTypeAnalysis, questionText: string, questionNumber: int,
                     slot: ImageSlot): Option<string>
  {
    if !NeedsImage(analysis, questionText, questionNumber) || slot.timedOut then None
    else
      match ImageGenerator.Diagram(dx, questionText, analysis.qtype, slot.service)
      case None => None
      case Some(imageUrl) =>
        match slot.download
        case Downloaded(d) => Some(d)
        case DownloadFailed => Some(imageUrl)
  }

  /** The reassigned `questionImageUrl` of one question. */
  method ImageForQuestion(dx: ImageGenerator.DiagramTexts, analysis: QuestionTypeAnalysis, questionText: string,
                          questionNumber: int, slot: ImageSlot)
    returns (questionImageUrl: Option<string>)
    ensures questionImageUrl == SlotImage(dx, analysis, questionText, questionNumber, slot)
  {
    questionImageUrl := None;
    if NeedsImage(analysis, questionText, questionNumber) {
      var imageUrl: Option<string> := None;
      if !slot.timedOut {
        imageUrl := ImageGenerator.GenerateQuestionDiagram(dx,
          questionNumber, questionText, analysis.concept, analysis.qtype, slot.service);
      }
      if imageUrl.Some? {
        match slot.download
        case Downloaded(d) =>
          questionImageUrl := Some(d);
        case DownloadFailed =>
          questionImageUrl := imageUrl;
      }
    }
  }

  /** The entry at `index` of the reply, formatted. */
  function FormatQuestion(dx: ImageGenerator.DiagramTexts, analysis: QuestionTypeAnalysis, q: RawQuestion, index: nat,
                          slot: ImageSlot): GeneratedQuestion
  {
    var n := QuestionNumber(q, index);
    var text := LatexCleanup.CleanLaTeX(FirstTruthy(q.questionText, q.question));
    GeneratedQuestion(
      n,
      text,
      LatexCleanup.CleanLaTeX(FirstTruthy(q.correctAnswer, q.answer)),
      DifficultyLevel(n),
      if Truthy(q.explanation) then Some(LatexCleanup.CleanLaTeX(q.explanation.value)) else None,
      SlotImage(dx, analysis, text, n, slot))
  }

  /** Every entry of the reply, formatted, in order. */
  function FormatAll(dx: ImageGenerator.DiagramTexts, analysis: QuestionTypeAnalysis, items: seq<RawQuestion>,
                     slots: nat -> ImageSlot): (r: seq<GeneratedQuestion>)
    ensures |r| == |items|
    ensures forall i :: 0 <= i < |items| ==> r[i] == FormatQuestion(dx, analysis, items[i], i, slots(i))
  {
    Seqs.MapIndexed(Formatter(dx, analysis, slots), items)
  }

  /** The `questions.map` callback. */
  function Formatter(dx: ImageGenerator.DiagramTexts, analysis: QuestionTypeAnalysis, slots: nat -> ImageSlot)
    : (RawQuestion, nat) -> GeneratedQuestion
  {
    (q: RawQuestion, i: nat) => FormatQuestion(dx, analysis, q, i, slots(i))
  }

  /** The `questions.map` callback applied to every entry, one after another. */
  method FormatQuestions(dx: ImageGenerator.DiagramTexts, analysis: QuestionTypeAnalysis,
                         questions: seq<RawQuestion>, slots: nat -> ImageSlot)
    returns (formatted: seq<GeneratedQuestion>)
    ensures formatted == FormatAll(dx, analysis, questions, slots)
  {
    formatted := [];
    for index := 0 to |questions|
      invariant formatted == FormatAll(dx, analysis, questions[..index], slots)
    {
      var item := FormatOne(dx, analysis, questions[index], index, slots(index));
      Seqs.MapIndexedExtend(Formatter(dx, analysis, slots), questions, index);
      formatted := formatted + [item];
    }
    assert questions[..|questions|] == questions;
  }

  /** The fields a saved question cannot do without. */
  predicate HasRequiredFields(q: GeneratedQuestion) {
    q.questionText != "" && q.correctAnswer != ""
  }

  /** The `for` loop over the formatted questions that rejects the batch. */
  method CheckRequiredFields(questions: seq<GeneratedQuestion>) returns (ok: bool)
    ensures ok <==> forall i :: 0 <= i < |questions| ==> HasRequiredFields(questions[i])
  {
    for i := 0 to |questions|
      invariant forall j :: 0 <= j < i ==> HasRequiredFields(questions[j])
    {
      if questions[i].questionText == "" || questions[i].correctAnswer == "" {
        return false;
      }
    }
    return true;
  }

  /** The number of different answers, trimmed and lower-cased. */
  function DistinctAnswers(questions: seq<GeneratedQuestion>): nat {
    |set i | 0 <= i < |questions| :: Lower(Trim(questions[i].correctAnswer))|
  }

  // ---------------------------------------------------------------------------------------
  // The batch
  // ---------------------------------------------------------------------------------------

  /** The fixed prose of the system prompts and of the diagram request; `SourceProse` is the
    * source's own. */
  datatype Prose = Prose(system: PromptTemplates.PromptTexts, diagram: ImageGenerator.DiagramTexts)

  const SourceProse: Prose := Prose(PromptTemplates.SourceTexts, ImageGenerator.SourceDiagramTexts)

  const FailurePrefix: string := "Failed to generate questions: "

  /** The message every failure is reported with. */
  function Failure(message: Option<string>): string {
    FailurePrefix + (match message case Some(m) => m case None => "Unknown error")
  }

  const NoResponse: string := "No response from OpenAI"
  const ExpectedTen: string := "Expected 10 questions, got "
  const MissingFields: string := "Invalid question format: missing required fields"

  /** The facts the chat model is asked with. */
  function PromptFacts(request: GenerationRequest): UserPromptFacts {
    var analysis := DetectQuestionType(request.sourceQuestion, Truthy(request.sourceImageUrl));
    UserPromptFacts(analysis, request.sourceQuestion,
      QuotedAnswer(EmbeddedAnswer(request.sourceQuestion, request.sourceAnswer)),
      request.explanation, Truthy(request.sourceImageUrl))
  }

  /** The system prompt of the chat call. */
  function SystemPrompt(prose: Prose, request: GenerationRequest): string {
    var analysis := DetectQuestionType(request.sourceQuestion, Truthy(request.sourceImageUrl));
    PromptTemplates.GetSystemPromptForType(prose.system, analysis.qtype, analysis.hasVisual)
  }

  /** What the chat call's completion turns into: the ten formatted questions or the error. */
  function Batch(dx: ImageGenerator.DiagramTexts, analysis: QuestionTypeAnalysis,
                 completion: Completion, slots: nat -> ImageSlot): Result<seq<GeneratedQuestion>>
  {
    match completion
    case Failed(m) => Err(Failure(m))
    case NoContent => Err(Failure(Some(NoResponse)))
    case Content(reply) =>
      var items := QuestionList(reply);
      if |items| != 10 then Err(Failure(Some(ExpectedTen + NatToString(|items|))))
      else
        var formatted := FormatAll(dx, analysis, items, slots);
        if exists i :: 0 <= i < |formatted| && !HasRequiredFields(formatted[i]) then
          Err(Failure(Some(MissingFields)))
        else Ok(formatted)
  }

  /** `generateQuestions`: the ten formatted questions, or the error it throws. */
  function Generate(prose: Prose, request: GenerationRequest, chat: (string, UserPromptFacts) -> Completion,
                    slots: nat -> ImageSlot): Result<seq<GeneratedQuestion>>
  {
    var facts := PromptFacts(request);
    Batch(prose.diagram, facts.analysis, chat(SystemPrompt(prose, request), facts), slots)
  }

  /** The `try` block after the chat call. */
  method HandleCompletion(dx: ImageGenerator.DiagramTexts, analysis: QuestionTypeAnalysis,
                          completion: Completion, slots: nat -> ImageSlot)
    returns (r: Result<seq<GeneratedQuestion>>, warned: bool)
    ensures r == Batch(dx, analysis, completion, slots)
    ensures warned <==> r.Ok? && DistinctAnswers(r.value) < 5
  {
    if completion.Failed? {
      return Err(Failure(completion.message)), false;
    }
    if completion.NoContent? {
      return Err(Failure(Some(NoResponse))), false;
    }
    var questions := QuestionList(completion.reply);
    if |questions| != 10 {
      return Err(Failure(Some(ExpectedTen + NatToString(|questions|)))), false;
    }
    var formatted := FormatQuestions(dx, analysis, questions, slots);
    var ok := CheckRequiredFields(formatted);
    if !ok {
      return Err(Failure(Some(MissingFields))), false;
    }
    warned := DistinctAnswers(formatted) < 5;
    r := Ok(formatted);
  }

  /**
    * `generateQuestions` step by step.  `warned`: the warning about too few different answers
    * was logged.
    */
  method GenerateQuestions(prose: Prose, request: GenerationRequest, chat: (string, UserPromptFacts) -> Completion,
                           slots: nat -> ImageSlot)
    returns (r: Result<seq<GeneratedQuestion>>, warned: bool)
    ensures r == Generate(prose, request, chat, slots)
    ensures warned <==> r.Ok? && DistinctAnswers(r.value) < 5
  {
    var analysis := DetectQuestionType(request.sourceQuestion, Truthy(request.sourceImageUrl));
    var systemPrompt := PromptTemplates.GetSystemPromptForType(prose.system,
      analysis.qtype, analysis.hasVisual);
    var extractedAnswer := ExtractEmbeddedAnswer(request.sourceQuestion, request.sourceAnswer);
    var facts := UserPromptFacts(analysis, request.sourceQuestion, QuotedAnswer(extractedAnswer),
      request.explanation, Truthy(request.sourceImageUrl));
    assert facts == PromptFacts(request);
    assert systemPrompt == SystemPrompt(prose, request);
    var completion := chat(systemPrompt, facts);
    r, warned := HandleCompletion(prose.diagram, analysis, completion, slots);
  }

  /** One application of the `questions.map` callback. */
  method FormatOne(dx: ImageGenerator.DiagramTexts, analysis: QuestionTypeAnalysis,
                   q: RawQuestion, index: nat, slot: ImageSlot)
    returns (item: GeneratedQuestion)
    ensures item == FormatQuestion(dx, analysis, q, index, slot)
  {
    var questionNumber := QuestionNumber(q, index);
    var correctDifficultyLevel := DifficultyLevel(questionNumber);
    var questionText := LatexCleanup.CleanLaTeX(FirstTruthy(q.questionText, q.question));
    var questionImageUrl := ImageForQuestion(dx, analysis, questionText, questionNumber, slot);
    var explanation := if Truthy(q.explanation) then Some(LatexCleanup.CleanLaTeX(q.explanation.value)) else None;
    item := GeneratedQuestion(questionNumber, questionText,
      LatexCleanup.CleanLaTeX(FirstTruthy(q.correctAnswer, q.answer)),
      correctDifficultyLevel, explanation, questionImageUrl);
  }

  // ---------------------------------------------------------------------------------------
  // Properties
  // ---------------------------------------------------------------------------------------

  /**
    * A given answer is kept; otherwise the value after "answer", "correct answer" or
    * "solution" is taken, else the letter after "answer", "correct" or "solution", else the
    * answer stays as given.  The captures need no trimming.
    */
  lemma EmbeddedAnswerCases(sourceQuestion: string, sourceAnswer: string)
    ensures var r := EmbeddedAnswer(sourceQuestion, sourceAnswer);
      var p1 := AnswerPatterns.Search(AnswerPatterns.ValueAfterKeyword, sourceQuestion);
      var p2 := AnswerPatterns.Search(AnswerPatterns.ChoiceAfterKeyword, sourceQuestion);
      && (!NeedsExtraction(sourceAnswer) ==> r == sourceAnswer)
      && (NeedsExtraction(sourceAnswer) && p1.Some? ==> r == p1.value && AnswerPatterns.NumberLikeWord(r))
      && (NeedsExtraction(sourceAnswer) && p1.None? && p2.Some? ==>
            r == p2.value && |r| == 1 && AnswerPatterns.IsChoice(r[0]))
      && (NeedsExtraction(sourceAnswer) && p1.None? && p2.None? ==> r == sourceAnswer)
  {
    var p1 := AnswerPatterns.Search(AnswerPatterns.ValueAfterKeyword, sourceQuestion);
    var p2 := AnswerPatterns.Search(AnswerPatterns.ChoiceAfterKeyword, sourceQuestion);
    if p1.Some? {
      AnswerPatterns.CapturedIsTrimmed(AnswerPatterns.ValueAfterKeyword, sourceQuestion);
      AnswerPatterns.SearchShape(AnswerPatterns.ValueAfterKeyword, sourceQuestion);
    } else if p2.Some? {
      AnswerPatterns.CapturedIsTrimmed(AnswerPatterns.ChoiceAfterKeyword, sourceQuestion);
      AnswerPatterns.SearchShape(AnswerPatterns.ChoiceAfterKeyword, sourceQuestion);
    }
  }

  /** A captured value holds no space. */
  lemma NumberLikeHasNoSpace(v: string)
    requires AnswerPatterns.NumberLikeWord(v)
    ensures forall i :: 0 <= i < |v| ==> v[i] != ' '
  {
    var a := Run(IsAlnum, v);
    forall i | 0 <= i < |v|
      ensures v[i] != ' '
    {
      if i < a {
        assert IsAlnum(v[i]);
      } else if i > a {
        assert IsDigit(v[i]);
      }
    }
  }

  lemma PlaceholderHasSpace()
    ensures |ExtractedFromQuestion| > 9 && ExtractedFromQuestion[9] == ' '
  {
  }

  /** A captured value is never the placeholder, which holds a space. */
  lemma NumberLikeNotPlaceholder(v: string)
    requires AnswerPatterns.NumberLikeWord(v)
    ensures v != ExtractedFromQuestion
  {
    NumberLikeHasNoSpace(v);
    PlaceholderHasSpace();
  }

  /** An answer found in the question always reaches the prompt. */
  lemma ExtractedAnswerIsQuoted(sourceQuestion: string, sourceAnswer: string)
    requires NeedsExtraction(sourceAnswer)
    requires AnswerPatterns.Search(AnswerPatterns.ValueAfterKeyword, sourceQuestion).Some?
          || AnswerPatterns.Search(AnswerPatterns.ChoiceAfterKeyword, sourceQuestion).Some?
    ensures QuotedAnswer(EmbeddedAnswer(sourceQuestion, sourceAnswer))
      == Some(EmbeddedAnswer(sourceQuestion, sourceAnswer))
  {
    var r := EmbeddedAnswer(sourceQuestion, sourceAnswer);
    var p1 := AnswerPatterns.Search(AnswerPatterns.ValueAfterKeyword, sourceQuestion);
    var p2 := AnswerPatterns.Search(AnswerPatterns.ChoiceAfterKeyword, sourceQuestion);
    if p1.Some? {
      assert r == p1.value by {
        AnswerPatterns.CapturedIsTrimmed(AnswerPatterns.ValueAfterKeyword, sourceQuestion);
      }
      assert r != "" && r != ExtractedFromQuestion by {
        AnswerPatterns.SearchShape(AnswerPatterns.ValueAfterKeyword, sourceQuestion);
        NumberLikeNotPlaceholder(r);
      }
    } else {
      assert r == p2.value by {
        AnswerPatterns.CapturedIsTrimmed(AnswerPatterns.ChoiceAfterKeyword, sourceQuestion);
      }
      assert r != "" && r != ExtractedFromQuestion by {
        AnswerPatterns.SearchShape(AnswerPatterns.ChoiceAfterKeyword, sourceQuestion);
        PlaceholderHasSpace();
      }
    }
  }

  /**
    * The number is the model's when non-zero, else the position plus one; the difficulty is
    * that number; the model's own difficulty is never read.
    */
  lemma NumberingRule(dx: ImageGenerator.DiagramTexts, analysis: QuestionTypeAnalysis,
                      q: RawQuestion, index: nat, slot: ImageSlot, d: Option<int>)
    ensures var r := FormatQuestion(dx, analysis, q, index, slot);
      && r.difficultyLevel == r.questionNumber
      && (q.questionNumber.Some? && q.questionNumber.value != 0 ==> r.questionNumber == q.questionNumber.value)
      && (q.questionNumber.None? || q.questionNumber.value == 0 ==> r.questionNumber == index + 1)
      && FormatQuestion(dx, analysis, q.(difficultyLevel := d), index, slot) == r
  {
  }

  /**
    * The text falls back from `question_text` to `question` to nothing, the answer from
    * `correct_answer` to `answer` to nothing, each cleaned; a missing source leaves the field
    * empty; the explanation is present exactly when the model gave a non-empty one.
    */
  lemma FieldFallbacks(dx: ImageGenerator.DiagramTexts, analysis: QuestionTypeAnalysis,
                       q: RawQuestion, index: nat, slot: ImageSlot)
    ensures var r := FormatQuestion(dx, analysis, q, index, slot);
      && (Truthy(q.questionText) ==> r.questionText == LatexCleanup.CleanLaTeX(q.questionText.value))
      && (!Truthy(q.questionText) && Truthy(q.question) ==> r.questionText == LatexCleanup.CleanLaTeX(q.question.value))
      && (!Truthy(q.questionText) && !Truthy(q.question) ==> r.questionText == "")
      && (Truthy(q.correctAnswer) ==> r.correctAnswer == LatexCleanup.CleanLaTeX(q.correctAnswer.value))
      && (!Truthy(q.correctAnswer) && Truthy(q.answer) ==> r.correctAnswer == LatexCleanup.CleanLaTeX(q.answer.value))
      && (!Truthy(q.correctAnswer) && !Truthy(q.answer) ==> r.correctAnswer == "")
      && (r.explanation.Some? <==> Truthy(q.explanation))
      && (r.explanation.Some? ==> r.explanation.value == LatexCleanup.CleanLaTeX(q.explanation.value))
  {
  }

  /** The text and the answer of a formatted question are cleaned: no white space at the ends,
    * single plain spaces inside, no backslash before a bracket. */
  lemma FormattedIsClean(dx: ImageGenerator.DiagramTexts, analysis: QuestionTypeAnalysis,
                         q: RawQuestion, index: nat, slot: ImageSlot)
    ensures var r := FormatQuestion(dx, analysis, q, index, slot);
      && Trimmed(r.questionText) && NoDoubleSpace(r.questionText) && OnlyPlainSpaces(r.questionText)
      && Trimmed(r.correctAnswer) && NoDoubleSpace(r.correctAnswer) && OnlyPlainSpaces(r.correctAnswer)
      && NoPair(r.questionText, '\\', LatexCleanup.Brackets)
      && NoPair(r.correctAnswer, '\\', LatexCleanup.Brackets)
  {
    var t := FirstTruthy(q.questionText, q.question);
    var a := FirstTruthy(q.correctAnswer, q.answer);
    LatexCleanup.CleanLaTeXWhiteSpace(t);
    LatexCleanup.CleanLaTeXWhiteSpace(a);
    LatexCleanup.CleanLaTeXNoEscapedBracket(t);
    LatexCleanup.CleanLaTeXNoEscapedBracket(a);
  }

  /**
    * A question gets an image only when one is needed, the diagram was in time, and either
    * the source is of the diagram type or the text names a shape: a visual source alone does
    * not get one past the diagram's own gate.  The image is the downloaded data, or the
    * service's URL when the download fails.
    */
  lemma ImageRule(dx: ImageGenerator.DiagramTexts, analysis: QuestionTypeAnalysis,
                  questionText: string, questionNumber: int, slot: ImageSlot)
    ensures var r := SlotImage(dx, analysis, questionText, questionNumber, slot);
      var d := ImageGenerator.Diagram(dx, questionText, analysis.qtype, slot.service);
      && (r.Some? ==> NeedsImage(analysis, questionText, questionNumber) && !slot.timedOut && d.Some?)
      && (r.Some? ==> analysis.qtype == GeometryWithDiagram || ImageGenerator.HasShapeWord(Lower(questionText)))
      && (NeedsImage(analysis, questionText, questionNumber) && !slot.timedOut && d.Some? ==>
            r == (if slot.download.Downloaded? then Some(slot.download.dataUrl) else d))
  {
  }

  /** Past question 7 a question of another type from a source without visuals gets no image. */
  lemma LateQuestionsNoImage(dx: ImageGenerator.DiagramTexts, analysis: QuestionTypeAnalysis,
                             questionText: string, questionNumber: int, slot: ImageSlot)
    requires analysis.qtype != GeometryWithDiagram && !analysis.hasVisual && questionNumber > 7
    ensures SlotImage(dx, analysis, questionText, questionNumber, slot).None?
  {
  }

  /**
    * The batch succeeds exactly when the reply lists ten entries that all keep a text and an
    * answer; it then holds them formatted, in order.  Every failure message starts with the
    * common prefix, and a wrong count names the count.
    */
  lemma BatchRule(dx: ImageGenerator.DiagramTexts, analysis: QuestionTypeAnalysis,
                  completion: Completion, slots: nat -> ImageSlot)
    ensures var r := Batch(dx, analysis, completion, slots);
      r.Ok? <==> (completion.Content? && |QuestionList(completion.reply)| == 10
        && forall i :: 0 <= i < 10 ==>
             HasRequiredFields(FormatQuestion(dx, analysis, QuestionList(completion.reply)[i], i, slots(i))))
    ensures var r := Batch(dx, analysis, completion, slots);
      r.Ok? ==> |r.value| == 10 && forall i :: 0 <= i < 10 ==>
        r.value[i] == FormatQuestion(dx, analysis, QuestionList(completion.reply)[i], i, slots(i))
    ensures var r := Batch(dx, analysis, completion, slots);
      r.Err? ==> StartsWith(r.message, FailurePrefix)
    ensures var r := Batch(dx, analysis, completion, slots);
      completion.Content? && |QuestionList(completion.reply)| != 10 ==>
        r == Err(FailurePrefix + ExpectedTen + NatToString(|QuestionList(completion.reply)|))
  {
    var r := Batch(dx, analysis, completion, slots);
    if r.Err? {
      var m := r.message;
      assert m[..|FailurePrefix|] == FailurePrefix;
    }
  }
}
