/**
 * The test-generation endpoint (app/api/tests/generate/route.ts): the admin gate, reading the
 * body (JSON, text form, or image form read by the vision model), the length checks, resolving
 * the source answer, generating and saving the ten questions, and the error replies.
 *
 * Every awaited call is an oracle in `Effects`: each either completes with a value or throws
 * (a `Retry.Thrown`, so an `Error` carries its message).  A throw anywhere is caught by the
 * handler's outer `try` and answered with a classified 500.
 */
module GenerateRoute {

  import opened Wrappers
  import opened Strings
  import AnswerPatterns
  import Retry
  import Validation
  import QuestionGenerator

  /** The result of an awaited call: its value, or what it threw. */
  datatype Step<T> = Done(value: T) | Raised(thrown: Retry.Thrown)

  /** An uploaded image: its MIME type and what `arrayBuffer()` gave, as base64 text. */
  datatype ImageFile = ImageFile(mimeType: string, contents: Step<string>)

  /** The request body. JSON fields are absent or strings; form fields as read by `formData.get`;
    * `Unreadable` is a body whose `request.json()` or `request.formData()` threw. */
  datatype Body =
    | Json(sourceQuestion: Option<string>, sourceAnswer: Option<string>, explanation: Option<string>)
    | TextForm(formQuestion: Option<string>, formExplanation: Option<string>)
    | ImageForm(image: Option<ImageFile>, imageExplanation: Option<string>)
    | Unreadable(thrown: Retry.Thrown)

  /** A test row as `createTest` returns it. */
  datatype TestRow = TestRow(id: string, createdAt: string)

  /** A saved question as `createQuestions` returns it. */
  datatype SavedQuestion = SavedQuestion(id: string, questionNumber: int, difficultyLevel: int)

  /** The awaited calls the handler makes. */
  datatype Effects = Effects(
    isAdmin: Step<bool>,
    vision: string -> Step<Option<string>>,
    generate: QuestionGenerator.GenerationRequest -> Step<seq<QuestionGenerator.GeneratedQuestion>>,
    createTest: (string, string, Option<string>, Option<string>) -> Step<Option<TestRow>>,
    createQuestions: (string, seq<QuestionGenerator.GeneratedQuestion>) -> Step<seq<SavedQuestion>>)

  /** The handler's own refusals, each with a fixed status and message. */
  datatype Refusal =
    | Unauthorized | MissingImage | UnreadableImage | QuestionTooShort | QuestionTooLong
    | AnswerTooLong | TestNotCreated | QuestionsNotSaved

  function Status(k: Refusal): (code: nat)
    ensures k == Unauthorized ==> code == 403
    ensures k in {MissingImage, UnreadableImage, QuestionTooShort, QuestionTooLong, AnswerTooLong} ==> code == 400
    ensures k in {TestNotCreated, QuestionsNotSaved} ==> code == 500
  {
    match k
    case Unauthorized => 403
    case TestNotCreated => 500
    case QuestionsNotSaved => 500
    case _ => 400
  }

  function Message(k: Refusal): string
  {
    match k
    case Unauthorized => "Unauthorized: Admin access required"
    case MissingImage => "Missing image file"
    case UnreadableImage => "Could not extract sufficient text from image. Please try a clearer image or use text input."
    case QuestionTooShort => "Source question must be at least 10 characters long"
    case QuestionTooLong => "Source question is too long (max 10000 characters)"
    case AnswerTooLong => "Source answer is too long (max 500 characters)"
    case TestNotCreated => "Failed to create test in database"
    case QuestionsNotSaved => "Failed to save all questions to database"
  }

  /** What the handler answers. */
  datatype Reply =
    | Refused(refusal: Refusal)
    | Crashed(error: string, message: string)
    | Created(test: TestRow, questions: seq<SavedQuestion>)

  function ReplyStatus(r: Reply): nat {
    match r
    case Refused(k) => Status(k)
    case Crashed(_, _) => 500
    case Created(_, _) => 200
  }

  // ---------------------------------------------------------------------------
  // The catch block

  const GenericFailure := "Failed to generate test"
  const AIServiceError := "AI service error. Please check your API configuration and try again."
  const DatabaseError := "Database error. Please try again later."

  /** The `error` field: AI-service wording first, then database wording, else the raw message. */
  function ClassifyError(t: Retry.Thrown): string
  {
    match t
    case NonError => GenericFailure
    case ErrorValue(m) =>
      if Contains(m, "OpenAI") || Contains(m, "API") then AIServiceError
      else if Contains(m, "database") || Contains(m, "Supabase") then DatabaseError
      else m
  }

  /** The 500 reply for anything thrown. */
  function Caught(t: Retry.Thrown): (r: Reply)
    ensures r.Crashed? && r.error == ClassifyError(t) && r.message == Retry.LastErrorMessage(t)
  {
    Crashed(ClassifyError(t), Retry.LastErrorMessage(t))
  }

  /** The mapping's three cases, in their order of precedence. */
  lemma ClassificationRule(m: string)
    ensures (Contains(m, "OpenAI") || Contains(m, "API")) ==> ClassifyError(Retry.ErrorValue(m)) == AIServiceError
    ensures !(Contains(m, "OpenAI") || Contains(m, "API")) && (Contains(m, "database") || Contains(m, "Supabase"))
      ==> ClassifyError(Retry.ErrorValue(m)) == DatabaseError
    ensures !(Contains(m, "OpenAI") || Contains(m, "API") || Contains(m, "database") || Contains(m, "Supabase"))
      ==> ClassifyError(Retry.ErrorValue(m)) == m
    ensures ClassifyError(Retry.NonError) == GenericFailure
  {
  }

  /** A message naming both the API and the database is reported as an AI-service error. */
  lemma AIServiceWins(a: string, b: string)
    ensures ClassifyError(Retry.ErrorValue(a + "API" + b + "database")) == AIServiceError
  {
    ContainsMiddle(a, "API", b + "database");
    assert a + "API" + b + "database" == a + "API" + (b + "database");
  }

  // ---------------------------------------------------------------------------
  // Reading the body

  /** What the body yields: the question (if any), the supplied answer, the explanation and the image's data URL. */
  datatype Submission = Submission(question: Option<string>, suppliedAnswer: Option<string>,
                                   explanation: Option<string>, sourceImageUrl: Option<string>)

  datatype Reading = Read(submission: Submission) | Stopped(reply: Reply)

  /** `value || ''` and `value || undefined` on form fields. */
  function OrEmpty(s: Option<string>): string {
    if s.Some? then s.value else ""
  }

  function TruthyOrNone(s: Option<string>): (r: Option<string>)
    ensures r.Some? <==> QuestionGenerator.Truthy(s)
    ensures r.Some? ==> r == s
  {
    if QuestionGenerator.Truthy(s) then s else None
  }

  /** `data:${mimeType};base64,${base64Image}`. */
  function DataUrl(mimeType: string, base64: string): string {
    "data:" + mimeType + ";base64," + base64
  }

  /** Lines 19-105: a JSON body is taken as it is; a text form supplies no answer; an image form
    * needs a file whose extracted text has at least ten non-padding characters. */
  function ReadBody(e: Effects, body: Body): Reading
  {
    match body
    case Json(q, a, x) => Read(Submission(q, a, x, None))
    case TextForm(q, x) => Read(Submission(Some(OrEmpty(q)), None, TruthyOrNone(x), None))
    case ImageForm(None, _) => Stopped(Refused(MissingImage))
    case Unreadable(t) => Stopped(Caught(t))
    case ImageForm(Some(f), x) =>
      match f.contents
      case Raised(t) => Stopped(Caught(t))
      case Done(base64) =>
        var url := DataUrl(f.mimeType, base64);
        match e.vision(url)
        case Raised(t) => Stopped(Caught(t))
        case Done(content) =>
          var q := OrEmpty(content);
          if |Trim(q)| < 10 then Stopped(Refused(UnreadableImage))
          else Read(Submission(Some(q), None, TruthyOrNone(x), Some(url)))
  }

  // ---------------------------------------------------------------------------
  // Resolving the source answer

  const SeeQuestionText := "See question text"

  /** Lines 124-136: the three patterns in turn, else the sentinel. */
  function ExtractedAnswer(question: string): string
  {
    match AnswerPatterns.Search(AnswerPatterns.ValueAfterKeyword, question)
    case Some(v) => Trim(v)
    case None =>
      match AnswerPatterns.Search(AnswerPatterns.ChoiceAfterKeyword, question)
      case Some(v) => Trim(v)
      case None =>
        match AnswerPatterns.Search(AnswerPatterns.ValueAfterIs, question)
        case Some(v) => Trim(v)
        case None => SeeQuestionText
  }

  /** Lines 124-141: a supplied non-empty answer is kept, a missing one extracted, a blank one replaced. */
  function FinalAnswer(question: string, supplied: Option<string>): string
  {
    var answer := if QuestionGenerator.Truthy(supplied) then supplied.value else ExtractedAnswer(question);
    if |Trim(answer)| == 0 then SeeQuestionText else answer
  }

  /** The reassigned `answerMatch` and `source_answer` of lines 124-141. */
  method ResolveSourceAnswer(question: string, supplied: Option<string>) returns (sourceAnswer: string)
    ensures sourceAnswer == FinalAnswer(question, supplied)
  {
    if supplied.Some? && supplied.value != "" {
      sourceAnswer := supplied.value;
    } else {
      var answerMatch := AnswerPatterns.Search(AnswerPatterns.ValueAfterKeyword, question);
      if answerMatch.None? {
        answerMatch := AnswerPatterns.Search(AnswerPatterns.ChoiceAfterKeyword, question);
      }
      if answerMatch.None? {
        answerMatch := AnswerPatterns.Search(AnswerPatterns.ValueAfterIs, question);
      }
      sourceAnswer := if answerMatch.Some? then Trim(answerMatch.value) else SeeQuestionText;
    }
    if |Trim(sourceAnswer)| == 0 {
      sourceAnswer := SeeQuestionText;
    }
  }

  // ---------------------------------------------------------------------------
  // The handler

  /** The request handed to the generator (lines 151-156). */
  function RequestFor(question: string, answer: string, s: Submission): QuestionGenerator.GenerationRequest {
    QuestionGenerator.GenerationRequest(question, if answer != "" then answer else QuestionGenerator.ExtractedFromQuestion,
      s.explanation, s.sourceImageUrl)
  }

  /** Lines 159-203: create the test, save the questions, and insist that ten were saved. */
  function Save(e: Effects, question: string, answer: string, s: Submission,
                generated: seq<QuestionGenerator.GeneratedQuestion>): Reply
  {
    match e.createTest(question, answer, s.explanation, s.sourceImageUrl)
    case Raised(t) => Caught(t)
    case Done(None) => Refused(TestNotCreated)
    case Done(Some(test)) =>
      match e.createQuestions(test.id, generated)
      case Raised(t) => Caught(t)
      case Done(saved) => if |saved| != 10 then Refused(QuestionsNotSaved) else Created(test, saved)
  }

  /** Lines 107-120: the question must be there, have ten characters once trimmed, and at most 10000 in all. */
  function LengthRefusal(question: Option<string>): (r: Option<Refusal>)
    ensures r.None? <==> question.Some? && |Trim(question.value)| >= 10 && |question.value| <= 10000
  {
    if !QuestionGenerator.Truthy(question) || |Trim(question.value)| < 10 then Some(QuestionTooShort)
    else if |question.value| > 10000 then Some(QuestionTooLong)
    else None
  }

  /** Lines 107-203, once the body has been read. */
  function Process(e: Effects, s: Submission): Reply
  {
    match LengthRefusal(s.question)
    case Some(k) => Refused(k)
    case None => Proceed(e, s.question.value, s)
  }

  /** Lines 124-203, once the question has passed its length checks. */
  function Proceed(e: Effects, question: string, s: Submission): Reply
  {
    var answer := FinalAnswer(question, s.suppliedAnswer);
    if |answer| > 500 then Refused(AnswerTooLong)
    else
      match e.generate(RequestFor(question, answer, s))
      case Raised(t) => Caught(t)
      case Done(generated) => Save(e, question, answer, s, generated)
  }

  /** `POST`: the admin gate first, then the body. */
  function Handle(e: Effects, body: Body): Reply
  {
    match e.isAdmin
    case Raised(t) => Caught(t)
    case Done(false) => Refused(Unauthorized)
    case Done(true) =>
      match ReadBody(e, body)
      case Stopped(r) => r
      case Read(s) => Process(e, s)
  }

  /** The handler as written, with its early returns. */
  method Post(e: Effects, body: Body) returns (reply: Reply)
    ensures reply == Handle(e, body)
  {
    var adminCheck := e.isAdmin;
    if adminCheck.Raised? {
      return Caught(adminCheck.thrown);
    }
    if !adminCheck.value {
      return Refused(Unauthorized);
    }
    var reading := ReadBody(e, body);
    if reading.Stopped? {
      return reading.reply;
    }
    reply := Validated(e, reading.submission);
  }

  /** Lines 107-120: the length checks. */
  method Validated(e: Effects, s: Submission) returns (reply: Reply)
    ensures reply == Process(e, s)
  {
    if !(s.question.Some? && s.question.value != "") || |Trim(s.question.value)| < 10 {
      return Refused(QuestionTooShort);
    }
    var sourceQuestion := s.question.value;
    if |sourceQuestion| > 10000 {
      return Refused(QuestionTooLong);
    }
    reply := Answered(e, sourceQuestion, s);
  }

  /** Lines 124-156: the answer and the generation call. */
  method Answered(e: Effects, sourceQuestion: string, s: Submission) returns (reply: Reply)
    ensures reply == Proceed(e, sourceQuestion, s)
  {
    var sourceAnswer := ResolveSourceAnswer(sourceQuestion, s.suppliedAnswer);
    if |sourceAnswer| > 500 {
      return Refused(AnswerTooLong);
    }
    var generated := e.generate(RequestFor(sourceQuestion, sourceAnswer, s));
    if generated.Raised? {
      return Caught(generated.thrown);
    }
    reply := Store(e, sourceQuestion, sourceAnswer, s, generated.value);
  }

  /** Lines 159-203. */
  method Store(e: Effects, sourceQuestion: string, sourceAnswer: string, s: Submission,
               generated: seq<QuestionGenerator.GeneratedQuestion>) returns (reply: Reply)
    ensures reply == Save(e, sourceQuestion, sourceAnswer, s, generated)
  {
    var test := e.createTest(sourceQuestion, sourceAnswer, s.explanation, s.sourceImageUrl);
    if test.Raised? {
      return Caught(test.thrown);
    }
    if test.value.None? {
      return Refused(TestNotCreated);
    }
    var questions := e.createQuestions(test.value.value.id, generated);
    if questions.Raised? {
      return Caught(questions.thrown);
    }
    if |questions.value| != 10 {
      return Refused(QuestionsNotSaved);
    }
    reply := Created(test.value.value, questions.value);
  }

  // ---------------------------------------------------------------------------
  // Properties

  /** A caller who is not an admin gets 403 whatever the body, and nothing else is awaited. */
  lemma NonAdminRefused(e: Effects, body: Body, other: Effects, otherBody: Body)
    requires e.isAdmin == Done(false) && other.isAdmin == Done(false)
    ensures Handle(e, body) == Refused(Unauthorized) && ReplyStatus(Handle(e, body)) == 403
    ensures Handle(e, body) == Handle(other, otherBody)
  {
  }

  /** Questions whose trimmed text is under ten characters, or whose raw text is over 10000, are refused with 400. */
  lemma QuestionLengthRule(e: Effects, s: Submission)
    requires s.question.Some?
    ensures |Trim(s.question.value)| < 10 ==> Process(e, s) == Refused(QuestionTooShort)
    ensures |Trim(s.question.value)| >= 10 && |s.question.value| > 10000 ==> Process(e, s) == Refused(QuestionTooLong)
    ensures Process(e, s).Refused? && Process(e, s).refusal in {QuestionTooShort, QuestionTooLong}
      ==> ReplyStatus(Process(e, s)) == 400
  {
  }

  /** A body that cannot be read, or an image whose bytes cannot be read, is answered by the outer `catch`. */
  lemma UnreadableBodyCaught(e: Effects, t: Retry.Thrown, f: ImageFile, x: Option<string>)
    requires e.isAdmin == Done(true)
    ensures Handle(e, Unreadable(t)) == Caught(t) && ReplyStatus(Handle(e, Unreadable(t))) == 500
    ensures f.contents == Raised(t) ==> Handle(e, ImageForm(Some(f), x)) == Caught(t)
  {
  }

  /** A JSON body reaches the checks with its own fields; a missing question is too short. */
  lemma JsonBodyTakenAsIs(e: Effects, q: Option<string>, a: Option<string>, x: Option<string>)
    ensures ReadBody(e, Json(q, a, x)) == Read(Submission(q, a, x, None))
    ensures q.None? ==> Process(e, Submission(q, a, x, None)) == Refused(QuestionTooShort)
  {
  }

  /** A supplied answer with a non-space character is used as it is; extraction runs only without one. */
  lemma SuppliedAnswerKept(question: string, supplied: string)
    requires Validation.HasText(supplied)
    ensures FinalAnswer(question, Some(supplied)) == supplied
  {
    TrimEmptyIffBlank(supplied);
  }

  /** Without an answer, the first pattern that matches supplies it, else the sentinel. */
  lemma ExtractionOrder(question: string, supplied: Option<string>)
    requires !QuestionGenerator.Truthy(supplied)
    ensures var p1 := AnswerPatterns.Search(AnswerPatterns.ValueAfterKeyword, question);
            var p2 := AnswerPatterns.Search(AnswerPatterns.ChoiceAfterKeyword, question);
            var p3 := AnswerPatterns.Search(AnswerPatterns.ValueAfterIs, question);
            FinalAnswer(question, supplied) ==
              if p1.Some? then p1.value
              else if p2.Some? then p2.value
              else if p3.Some? then p3.value
              else SeeQuestionText
  {
    var p1 := AnswerPatterns.Search(AnswerPatterns.ValueAfterKeyword, question);
    var p2 := AnswerPatterns.Search(AnswerPatterns.ChoiceAfterKeyword, question);
    var p3 := AnswerPatterns.Search(AnswerPatterns.ValueAfterIs, question);
    if p1.Some? {
      CapturedNonBlank(AnswerPatterns.ValueAfterKeyword, question);
    } else if p2.Some? {
      CapturedNonBlank(AnswerPatterns.ChoiceAfterKeyword, question);
    } else if p3.Some? {
      CapturedNonBlank(AnswerPatterns.ValueAfterIs, question);
    } else {
      SentinelShape();
    }
  }

  /** The answer passed on is never empty or blank, and never the generator's placeholder unless
    * that exact text was supplied; so the generator's own extraction never runs again. */
  lemma AnswerPassedOn(question: string, supplied: Option<string>)
    ensures FinalAnswer(question, supplied) != ""
    ensures |Trim(FinalAnswer(question, supplied))| > 0
    ensures supplied != Some(QuestionGenerator.ExtractedFromQuestion) ==>
      !QuestionGenerator.NeedsExtraction(FinalAnswer(question, supplied))
  {
    AnswerNonBlank(question, supplied);
    if supplied != Some(QuestionGenerator.ExtractedFromQuestion) {
      ResolvedNotPlaceholder(question, supplied);
    }
  }

  lemma AnswerNonBlank(question: string, supplied: Option<string>)
    ensures |Trim(FinalAnswer(question, supplied))| > 0
  {
    var answer := if QuestionGenerator.Truthy(supplied) then supplied.value else ExtractedAnswer(question);
    if |Trim(answer)| == 0 {
      assert FinalAnswer(question, supplied) == SeeQuestionText;
      SentinelShape();
      TrimEmptyIffBlank(SeeQuestionText);
      assert !IsSpace(SeeQuestionText[0]);
    }
  }

  /** An answer over 500 characters is refused with 400 before anything is generated. */
  lemma LongAnswerRefused(e: Effects, s: Submission)
    requires s.question.Some? && 10 <= |Trim(s.question.value)| && |s.question.value| <= 10000
    requires |FinalAnswer(s.question.value, s.suppliedAnswer)| > 500
    ensures Process(e, s) == Refused(AnswerTooLong)
  {
    TrimIsTrimmed(s.question.value);
  }

  /** A success reply always carries exactly ten saved questions; any other saved count is a 500. */
  lemma SavedCountRule(e: Effects, body: Body)
    ensures Handle(e, body).Created? ==> |Handle(e, body).questions| == 10
  {
    match e.isAdmin
    case Raised(_) =>
    case Done(_) =>
      match ReadBody(e, body)
      case Stopped(_) =>
      case Read(s) => ProcessCount(e, s);
  }

  lemma ProcessCount(e: Effects, s: Submission)
    ensures Process(e, s).Created? ==> |Process(e, s).questions| == 10
  {
    if LengthRefusal(s.question).None? {
      ProceedCount(e, s.question.value, s);
    }
  }

  lemma ProceedCount(e: Effects, question: string, s: Submission)
    ensures Proceed(e, question, s).Created? ==> |Proceed(e, question, s).questions| == 10
  {
    var answer := FinalAnswer(question, s.suppliedAnswer);
    var generated := e.generate(RequestFor(question, answer, s));
    if |answer| <= 500 && generated.Done? {
      SaveCount(e, question, answer, s, generated.value);
    }
  }

  lemma SaveCount(e: Effects, question: string, answer: string, s: Submission,
                  generated: seq<QuestionGenerator.GeneratedQuestion>)
    ensures Save(e, question, answer, s, generated).Created? ==> |Save(e, question, answer, s, generated).questions| == 10
  {
  }

  /** When the database saves a number other than ten, the reply is the 500 refusal. */
  lemma ShortSaveRefused(e: Effects, question: string, answer: string, s: Submission,
                         generated: seq<QuestionGenerator.GeneratedQuestion>, test: TestRow)
    requires e.createTest(question, answer, s.explanation, s.sourceImageUrl) == Done(Some(test))
    requires e.createQuestions(test.id, generated).Done? && |e.createQuestions(test.id, generated).value| != 10
    ensures Save(e, question, answer, s, generated) == Refused(QuestionsNotSaved)
    ensures ReplyStatus(Save(e, question, answer, s, generated)) == 500
  {
  }

  /** The endpoint accepts questions of up to 10000 characters, the shared validator only up to 5000. */
  lemma LengthCapsDiffer(question: string, answer: string)
    requires 10 <= |Trim(question)| && 5000 < |question| <= 10000
    requires Validation.HasText(answer)
    ensures Validation.ValidateTestInput(question, answer) == Validation.Invalid(Validation.QuestionTooLong)
    ensures LengthRefusal(Some(question)).None?
  {
    Validation.TestInputRule(question, answer);
  }

  // ---------------------------------------------------------------------------
  // Helpers

  lemma SentinelShape()
    ensures |SeeQuestionText| == 17 && SeeQuestionText[0] == 'S'
    ensures QuestionGenerator.ExtractedFromQuestion[0] == 'E'
  {
  }

  /** A captured group, once trimmed, is itself and has a non-space character. */
  lemma CapturedNonBlank(p: AnswerPatterns.Pattern, question: string)
    requires AnswerPatterns.Search(p, question).Some?
    ensures var v := AnswerPatterns.Search(p, question).value;
      Trim(v) == v && |Trim(v)| > 0 && v != QuestionGenerator.ExtractedFromQuestion
  {
    var v := AnswerPatterns.Search(p, question).value;
    AnswerPatterns.CapturedIsTrimmed(p, question);
    AnswerPatterns.SearchShape(p, question);
    if p.ChoiceAfterKeyword? {
      QuestionGenerator.PlaceholderHasSpace();
    } else {
      QuestionGenerator.NumberLikeNotPlaceholder(v);
    }
  }

  lemma ResolvedNotPlaceholder(question: string, supplied: Option<string>)
    requires supplied != Some(QuestionGenerator.ExtractedFromQuestion)
    ensures FinalAnswer(question, supplied) != QuestionGenerator.ExtractedFromQuestion
  {
    SentinelShape();
    if !QuestionGenerator.Truthy(supplied) {
      var p1 := AnswerPatterns.Search(AnswerPatterns.ValueAfterKeyword, question);
      var p2 := AnswerPatterns.Search(AnswerPatterns.ChoiceAfterKeyword, question);
      var p3 := AnswerPatterns.Search(AnswerPatterns.ValueAfterIs, question);
      if p1.Some? {
        CapturedNonBlank(AnswerPatterns.ValueAfterKeyword, question);
      } else if p2.Some? {
        CapturedNonBlank(AnswerPatterns.ChoiceAfterKeyword, question);
      } else if p3.Some? {
        CapturedNonBlank(AnswerPatterns.ValueAfterIs, question);
      }
    }
  }
}
