/**
 * Form and request validators (lib/utils/validation.ts).  Each validator is a chain of guards;
 * the first failing guard decides the message.  Lengths count characters.
 */
module Validation {

  import opened Strings

  /** `{ valid: true }` or `{ valid: false, message }`. */
  datatype Verdict = Valid | Invalid(message: string)

  // ---------------------------------------------------------------------------
  // validateEmail: /^[^\s@]+@[^\s@]+\.[^\s@]+$/

  /** `[^\s@]`. */
  predicate Plain(c: char) {
    !IsSpace(c) && c != '@'
  }

  /** `[^\s@]+\.[^\s@]+$` on what follows the '@'.  Backtracking lets the dot be any '.' with a
    * plain character on each side, and every character up to the end must be plain. */
  predicate DomainMatches(d: string) {
    Run(Plain, d) == |d| && exists k :: 0 < k < |d| - 1 && d[k] == '.'
  }

  /** The whole anchored pattern: a maximal run of plain characters, then '@', then the domain. */
  predicate ValidateEmail(email: string) {
    var local := Run(Plain, email);
    0 < local < |email| && email[local] == '@' && DomainMatches(email[local + 1..])
  }

  /** No character is white space. */
  predicate NoSpace(e: string) {
    forall j :: 0 <= j < |e| ==> !IsSpace(e[j])
  }

  /** Position `i` holds the only '@', and something precedes it. */
  predicate SoleAt(e: string, i: int) {
    0 < i < |e| && e[i] == '@' && forall j :: 0 <= j < |e| && j != i ==> e[j] != '@'
  }

  /** After position `i` there is a '.' that is neither right after `i` nor last. */
  predicate InnerDotAfter(e: string, i: nat) {
    exists k :: i + 1 < k < |e| - 1 && e[k] == '.'
  }

  /** A well-formed address: no white space, exactly one '@' with something before it, and a '.'
    * after the '@' that is neither the first nor the last character of the domain. */
  predicate WellFormedAddress(e: string) {
    NoSpace(e) && exists i :: 0 < i < |e| && SoleAt(e, i) && InnerDotAfter(e, i)
  }

  /** The pattern accepts exactly the well-formed addresses. */
  lemma EmailShape(email: string)
    ensures ValidateEmail(email) <==> WellFormedAddress(email)
  {
    if ValidateEmail(email) {
      EmailSound(email);
    }
    if WellFormedAddress(email) {
      var i :| 0 < i < |email| && SoleAt(email, i) && InnerDotAfter(email, i);
      EmailComplete(email, i);
    }
  }

  lemma EmailSound(email: string)
    requires ValidateEmail(email)
    ensures WellFormedAddress(email)
  {
    var local := Run(Plain, email);
    var d := email[local + 1..];
    forall j | 0 <= j < |email| ensures !IsSpace(email[j]) && (j != local ==> email[j] != '@') {
      if j > local {
        assert email[j] == d[j - local - 1];
      }
    }
    var k :| 0 < k < |d| - 1 && d[k] == '.';
    assert email[local + 1 + k] == '.';
    assert 0 < local < |email| && SoleAt(email, local) && InnerDotAfter(email, local);
  }

  lemma EmailComplete(email: string, i: int)
    requires NoSpace(email) && SoleAt(email, i) && InnerDotAfter(email, i)
    ensures ValidateEmail(email)
  {
    RunStops(Plain, email, i);
    var d := email[i + 1..];
    assert forall j :: 0 <= j < |d| ==> d[j] == email[i + 1 + j];
    RunStops(Plain, d, |d|);
    var k :| i + 1 < k < |email| - 1 && email[k] == '.';
    assert d[k - i - 1] == '.';
  }

  // ---------------------------------------------------------------------------
  // validatePassword

  const PasswordTooShort := "Password must be at least 6 characters long"

  function ValidatePassword(password: string): (r: Verdict)
    ensures r.Valid? <==> |password| >= 6
    ensures r.Invalid? ==> r.message == PasswordTooShort
  {
    if |password| < 6 then Invalid(PasswordTooShort) else Valid
  }

  // ---------------------------------------------------------------------------
  // validateTestInput

  const QuestionTooShort := "Source question must be at least 10 characters long"
  const AnswerRequired := "Source answer is required"
  const QuestionTooLong := "Source question is too long (max 5000 characters)"
  const AnswerTooLong := "Source answer is too long (max 500 characters)"

  /** The four guards, in the order they are tried. */
  function ValidateTestInput(sourceQuestion: string, sourceAnswer: string): Verdict
  {
    if |Trim(sourceQuestion)| < 10 then Invalid(QuestionTooShort)
    else if |Trim(sourceAnswer)| == 0 then Invalid(AnswerRequired)
    else if |sourceQuestion| > 5000 then Invalid(QuestionTooLong)
    else if |sourceAnswer| > 500 then Invalid(AnswerTooLong)
    else Valid
  }

  /** Some character of `s` is not white space. */
  predicate HasText(s: string) {
    exists i :: 0 <= i < |s| && !IsSpace(s[i])
  }

  /** The input is accepted exactly when all four guards pass; otherwise the first failing guard is reported. */
  lemma TestInputRule(q: string, a: string)
    ensures ValidateTestInput(q, a).Valid? <==> |Trim(q)| >= 10 && HasText(a) && |q| <= 5000 && |a| <= 500
    ensures |Trim(q)| < 10 ==> ValidateTestInput(q, a) == Invalid(QuestionTooShort)
    ensures |Trim(q)| >= 10 && !HasText(a) ==> ValidateTestInput(q, a) == Invalid(AnswerRequired)
    ensures |Trim(q)| >= 10 && HasText(a) && |q| > 5000 ==> ValidateTestInput(q, a) == Invalid(QuestionTooLong)
    ensures |Trim(q)| >= 10 && HasText(a) && |q| <= 5000 && |a| > 500 ==> ValidateTestInput(q, a) == Invalid(AnswerTooLong)
  {
    TrimEmptyIffBlank(a);
  }

  /** A question with fewer than ten characters is refused whatever its padding. */
  lemma ShortQuestionRefused(q: string, a: string)
    requires |q| < 10
    ensures ValidateTestInput(q, a) == Invalid(QuestionTooShort)
  {
    TrimIsTrimmed(q);
  }

  // ---------------------------------------------------------------------------
  // validateAnswer

  const AnswerEmpty := "Answer cannot be empty"
  const AnswerOverLimit := "Answer is too long (max 500 characters)"

  function ValidateAnswer(answer: string): Verdict
  {
    if |Trim(answer)| == 0 then Invalid(AnswerEmpty)
    else if |answer| > 500 then Invalid(AnswerOverLimit)
    else Valid
  }

  /** An answer is accepted exactly when it has a non-space character and at most 500 characters. */
  lemma AnswerRule(answer: string)
    ensures ValidateAnswer(answer).Valid? <==> HasText(answer) && |answer| <= 500
    ensures !HasText(answer) ==> ValidateAnswer(answer) == Invalid(AnswerEmpty)
    ensures HasText(answer) && |answer| > 500 ==> ValidateAnswer(answer) == Invalid(AnswerOverLimit)
  {
    TrimEmptyIffBlank(answer);
  }

  // ---------------------------------------------------------------------------
  // sanitizeInput

  /** `input.trim().replace(/\s+/g, ' ')`. */
  function SanitizeInput(input: string): string
  {
    Collapse(Trim(input))
  }

  /** The sanitized text has no white space at either end, only single plain spaces inside, and the
    * same non-space characters as the input. */
  lemma SanitizedIsNormal(input: string)
    ensures Trimmed(SanitizeInput(input))
    ensures NoDoubleSpace(SanitizeInput(input)) && OnlyPlainSpaces(SanitizeInput(input))
    ensures forall c :: !IsSpace(c) ==> (c in SanitizeInput(input) <==> c in input)
  {
    var t := Trim(input);
    TrimIsTrimmed(input);
    CollapseNormal(t);
    if t != [] {
      CollapseLast(t);
    }
    forall c | !IsSpace(c) ensures c in Collapse(t) <==> c in input {
      CollapseKeepsNonSpace(t, c);
      TrimKeepsNonSpace(input, c);
    }
  }

  /** Trimming removes white space only. */
  lemma TrimKeepsNonSpace(s: string, c: char)
    requires !IsSpace(c)
    ensures c in Trim(s) <==> c in s
  {
    TrimStartKeepsNonSpace(s, c);
    TrimEndKeepsNonSpace(TrimStart(s), c);
  }

  lemma TrimStartKeepsNonSpace(s: string, c: char)
    requires !IsSpace(c)
    ensures c in TrimStart(s) <==> c in s
  {
    DropSpacesKeepsNonSpace(s, c);
  }

  lemma TrimEndKeepsNonSpace(s: string, c: char)
    requires !IsSpace(c)
    ensures c in TrimEnd(s) <==> c in s
  {
    var t := TrimEnd(s);
    if c in s {
      var i :| 0 <= i < |s| && s[i] == c;
      assert i < |t|;
      assert t[i] == c;
    }
    if c in t {
      var i :| 0 <= i < |t| && t[i] == c;
      assert s[i] == c;
    }
  }

  /** Sanitizing twice is sanitizing once. */
  lemma SanitizeIdempotent(input: string)
    ensures SanitizeInput(SanitizeInput(input)) == SanitizeInput(input)
  {
    var r := SanitizeInput(input);
    SanitizedIsNormal(input);
    TrimOfTrimmed(r);
    CollapseOfNormal(r);
  }
}
