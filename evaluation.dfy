/**
 * Grading of a candidate's answer (lib/utils/evaluation.ts).
 *
 * `parseFloat` is a parameter: `Some(v)` is the number denoted by the longest numeric
 * prefix of the string, `None` stands for NaN.  The 0.001 tolerance is compared on exact
 * reals, so closeness is symmetric; IEEE rounding is not modelled.
 */
module Evaluation {

  import opened Wrappers
  import opened Strings
  import Seqs

  /** `parseFloat`, abstracted: None is NaN. */
  type ParseFloat = string -> Option<real>

  const Tolerance: real := 0.001

  /** `Math.abs(a - b) < tolerance`. */
  predicate Close(a: real, b: real) {
    (if a >= b then a - b else b - a) < Tolerance
  }

  /** Both strings parse as numbers, and the numbers are within the tolerance; None if either is NaN. */
  function NumericVerdict(parse: ParseFloat, a: string, b: string): (r: Option<bool>)
    ensures r.Some? <==> parse(a).Some? && parse(b).Some?
    ensures r.Some? ==> (r.value <==> Close(parse(a).value, parse(b).value))
  {
    match (parse(a), parse(b))
    case (Some(x), Some(y)) => Some(Close(x, y))
    case _ => None
  }

  /** The characters `[\d.-]` keeps. */
  predicate IsNumeric(c: char) {
    IsDigit(c) || c == '.' || c == '-'
  }

  /** `normalizeAnswer`: lower-case, drop white space, keep only digits, '.' and '-', trim. */
  function NormalizeAnswer(answer: string): string
  {
    Trim(Seqs.Filter(IsNumeric, RemoveSpaces(Lower(answer))))
  }

  /** The exact-match test: equal after lower-casing. */
  predicate SameIgnoringCase(a: string, b: string) {
    Lower(a) == Lower(b)
  }

  /** The last two steps, on normalized forms: equal, or both numeric and close. */
  predicate NormalizedVerdict(parse: ParseFloat, normalizedStudent: string, normalizedCorrect: string) {
    normalizedStudent == normalizedCorrect
    || (var v := NumericVerdict(parse, normalizedStudent, normalizedCorrect); v.Some? && v.value)
  }

  /** `evaluateAnswer`: exact (case-insensitive) match, then numeric, then normalized, then normalized numeric. */
  predicate EvaluateAnswer(parse: ParseFloat, studentAnswer: string, correctAnswer: string)
  {
    var student := Trim(studentAnswer);
    var correct := Trim(correctAnswer);
    var numeric := NumericVerdict(parse, student, correct);
    if SameIgnoringCase(student, correct) then true
    else if numeric.Some? then numeric.value
    else NormalizedVerdict(parse, NormalizeAnswer(student), NormalizeAnswer(correct))
  }

  /** One stored response of an attempt. */
  datatype Response = Response(isCorrect: bool)

  predicate IsCorrect(r: Response) {
    r.isCorrect
  }

  /** `calculateScore`: the length of the list of correct responses. */
  function CalculateScore(responses: seq<Response>): (score: nat)
    ensures score <= |responses|
  {
    Seqs.Count(IsCorrect, responses)
  }

  // ---------------------------------------------------------------------------
  // Properties

  /** Every answer is accepted against itself, whatever `parseFloat` does. */
  lemma EvaluateReflexive(parse: ParseFloat, answer: string)
    ensures EvaluateAnswer(parse, answer, answer)
  {
  }

  /** Only the case-folded trimmed strings matter to the exact-match branch: equal ones are always accepted. */
  lemma ExactBranchIgnoresPaddingAndCase(parse: ParseFloat, a: string, b: string, pa: string, sa: string, pb: string, sb: string)
    requires forall i :: 0 <= i < |pa| ==> IsSpace(pa[i])
    requires forall i :: 0 <= i < |sa| ==> IsSpace(sa[i])
    requires forall i :: 0 <= i < |pb| ==> IsSpace(pb[i])
    requires forall i :: 0 <= i < |sb| ==> IsSpace(sb[i])
    requires Lower(Trim(a)) == Lower(Trim(b))
    ensures EvaluateAnswer(parse, pa + a + sa, pb + b + sb)
  {
    TrimPadding(pa, a, sa);
    TrimPadding(pb, b, sb);
  }

  /** White space around an answer never changes the verdict. */
  lemma EvaluateIgnoresPadding(parse: ParseFloat, a: string, b: string, pa: string, sa: string)
    requires forall i :: 0 <= i < |pa| ==> IsSpace(pa[i])
    requires forall i :: 0 <= i < |sa| ==> IsSpace(sa[i])
    ensures EvaluateAnswer(parse, pa + a + sa, b) == EvaluateAnswer(parse, a, b)
    ensures EvaluateAnswer(parse, b, pa + a + sa) == EvaluateAnswer(parse, b, a)
  {
    TrimPadding(pa, a, sa);
  }

  /** The verdict does not depend on the order of its arguments. */
  lemma EvaluateSymmetric(parse: ParseFloat, a: string, b: string)
    ensures EvaluateAnswer(parse, a, b) == EvaluateAnswer(parse, b, a)
  {
    var student, correct := Trim(a), Trim(b);
    NumericVerdictSymmetric(parse, student, correct);
    NumericVerdictSymmetric(parse, NormalizeAnswer(student), NormalizeAnswer(correct));
  }

  lemma NumericVerdictSymmetric(parse: ParseFloat, a: string, b: string)
    ensures NumericVerdict(parse, a, b) == NumericVerdict(parse, b, a)
  {
  }

  /** Equal normalized forms are accepted, unless the raw strings are both numeric and decide it first. */
  lemma EqualNormalizedFormsAccepted(parse: ParseFloat, a: string, b: string)
    requires NormalizeAnswer(Trim(a)) == NormalizeAnswer(Trim(b))
    requires parse(Trim(a)).None? || parse(Trim(b)).None?
    ensures EvaluateAnswer(parse, a, b)
  {
  }

  /**
   * When both raw strings parse, the numeric branch decides and the normalized branch is never
   * reached: inserting one character that normalizing drops (the `e` of "1e5" against "15")
   * leaves the normalized forms equal, yet the answer is rejected when the parsed values differ.
   */
  lemma NumericBranchDecidesFirst(parse: ParseFloat, x: string, c: char, y: string)
    requires !IsNumeric(c) && !IsSpace(c)
    requires Trimmed(x + [c] + y) && Trimmed(x + y)
    requires NumericVerdict(parse, x + [c] + y, x + y) == Some(false)
    ensures NormalizeAnswer(x + [c] + y) == NormalizeAnswer(x + y)
    ensures !EvaluateAnswer(parse, x + [c] + y, x + y)
  {
    DroppedCharacter(x, c, y);
    LongerDiffers(x + [c] + y, x + y);
    RejectedByNumericBranch(parse, x + [c] + y, x + y);
  }

  lemma LongerDiffers(a: string, b: string)
    requires |a| != |b|
    ensures !SameIgnoringCase(a, b)
  {
    assert |Lower(a)| != |Lower(b)|;
  }

  lemma RejectedByNumericBranch(parse: ParseFloat, a: string, b: string)
    requires Trimmed(a) && Trimmed(b) && !SameIgnoringCase(a, b)
    requires NumericVerdict(parse, a, b) == Some(false)
    ensures !EvaluateAnswer(parse, a, b)
  {
    TrimOfTrimmed(a);
    TrimOfTrimmed(b);
  }

  /** A character that is neither numeric nor white space does not survive normalizing. */
  lemma DroppedCharacter(x: string, c: char, y: string)
    requires !IsNumeric(c) && !IsSpace(c)
    ensures NormalizeAnswer(x + [c] + y) == NormalizeAnswer(x + y)
  {
    var lc := LowerChar(c);
    var lx, ly := Lower(x), Lower(y);
    LowerInsert(x, c, y);
    var rx, ry := RemoveSpaces(lx), RemoveSpaces(ly);
    RemoveSpacesInsert(lx, lc, ly);
    FilterInsert(rx, lc, ry);
  }

  lemma LowerInsert(x: string, c: char, y: string)
    ensures Lower(x + [c] + y) == Lower(x) + [LowerChar(c)] + Lower(y)
    ensures Lower(x + y) == Lower(x) + Lower(y)
  {
    LowerAppend(x + [c], y);
    LowerAppend(x, [c]);
    LowerAppend(x, y);
  }

  lemma RemoveSpacesInsert(x: string, c: char, y: string)
    requires !IsSpace(c)
    ensures RemoveSpaces(x + [c] + y) == RemoveSpaces(x) + [c] + RemoveSpaces(y)
    ensures RemoveSpaces(x + y) == RemoveSpaces(x) + RemoveSpaces(y)
  {
    RemoveSpacesAppend(x + [c], y);
    RemoveSpacesAppend(x, [c]);
    RemoveSpacesAppend(x, y);
    assert RemoveSpaces([c]) == [c];
  }

  lemma FilterInsert(x: string, c: char, y: string)
    requires !IsNumeric(c)
    ensures Seqs.Filter(IsNumeric, x + [c] + y) == Seqs.Filter(IsNumeric, x + y)
  {
    Seqs.FilterAppend(IsNumeric, x + [c], y);
    Seqs.FilterAppend(IsNumeric, x, [c]);
    Seqs.FilterAppend(IsNumeric, x, y);
    assert Seqs.Filter(IsNumeric, [c]) == [];
  }

  lemma {:induction false} RemoveSpacesAppend(a: string, b: string)
    ensures RemoveSpaces(a + b) == RemoveSpaces(a) + RemoveSpaces(b)
    decreases |a|
  {
    if a == [] {
      assert a + b == b;
    } else {
      assert (a + b)[1..] == a[1..] + b;
      RemoveSpacesAppend(a[1..], b);
    }
  }

  /** The normalized form holds only digits, '.' and '-'. */
  lemma NormalizedIsNumeric(answer: string)
    ensures forall i :: 0 <= i < |NormalizeAnswer(answer)| ==> IsNumeric(NormalizeAnswer(answer)[i])
  {
    var f := Seqs.Filter(IsNumeric, RemoveSpaces(Lower(answer)));
    FilterChars(RemoveSpaces(Lower(answer)));
    TrimOfTrimmed(f);
    assert forall i :: 0 <= i < |f| ==> f[i] in f;
  }

  /** Normalizing twice is normalizing once. */
  lemma NormalizeIdempotent(answer: string)
    ensures NormalizeAnswer(NormalizeAnswer(answer)) == NormalizeAnswer(answer)
  {
    var n := NormalizeAnswer(answer);
    NormalizedIsNumeric(answer);
    NumericUnchanged(n);
  }

  /** A string of digits, '.' and '-' is left as it is by normalizing. */
  lemma NumericUnchanged(s: string)
    requires forall i :: 0 <= i < |s| ==> IsNumeric(s[i])
    ensures NormalizeAnswer(s) == s
  {
    LowerNumeric(s);
    RemoveSpacesNone(s);
    Seqs.FilterAllPass(IsNumeric, s);
    FilterChars(s);
    TrimOfTrimmed(s);
  }

  /** The score counts exactly the correct responses, so it is 0 when none is and the number of responses when all are. */
  lemma ScoreCountsCorrect(responses: seq<Response>)
    ensures CalculateScore(responses) == |set i: nat | i < |responses| && responses[i].isCorrect|
    ensures CalculateScore(responses) == |responses| <==> forall i :: 0 <= i < |responses| ==> responses[i].isCorrect
    ensures CalculateScore(responses) == 0 <==> forall i :: 0 <= i < |responses| ==> !responses[i].isCorrect
  {
    Seqs.CountIsPositions(IsCorrect, responses);
    assert Seqs.Positions(IsCorrect, responses) == set i: nat | i < |responses| && responses[i].isCorrect;
    if forall i :: 0 <= i < |responses| ==> responses[i].isCorrect {
      Seqs.FilterAllPass(IsCorrect, responses);
    } else {
      var i :| 0 <= i < |responses| && !responses[i].isCorrect;
      Seqs.FilterDropsFailing(IsCorrect, responses, i);
    }
    if forall i :: 0 <= i < |responses| ==> !responses[i].isCorrect {
      Seqs.FilterNonePass(IsCorrect, responses);
    } else {
      var i :| 0 <= i < |responses| && responses[i].isCorrect;
      assert responses[i] in Seqs.Filter(IsCorrect, responses);
    }
  }

  // ---------------------------------------------------------------------------
  // Helpers

  /** Padding made of white space disappears when trimming. */
  lemma TrimPadding(p: string, s: string, q: string)
    requires forall i :: 0 <= i < |p| ==> IsSpace(p[i])
    requires forall i :: 0 <= i < |q| ==> IsSpace(q[i])
    ensures Trim(p + s + q) == Trim(s)
  {
    TrimStartPadding(p, s + q);
    assert p + s + q == p + (s + q);
    TrimStartKeepsSuffix(s, q);
  }

  lemma {:induction false} TrimStartPadding(p: string, s: string)
    requires forall i :: 0 <= i < |p| ==> IsSpace(p[i])
    ensures TrimStart(p + s) == TrimStart(s)
    decreases |p|
  {
    if p != [] {
      assert (p + s)[1..] == p[1..] + s;
      TrimStartPadding(p[1..], s);
    } else {
      assert p + s == s;
    }
  }

  lemma {:induction false} TrimEndPadding(s: string, q: string)
    requires forall i :: 0 <= i < |q| ==> IsSpace(q[i])
    ensures TrimEnd(s + q) == TrimEnd(s)
    decreases |q|
  {
    if q != [] {
      var q' := q[..|q| - 1];
      assert (s + q)[..|s + q| - 1] == s + q';
      TrimEndPadding(s, q');
    } else {
      assert s + q == s;
    }
  }

  /** Trimming the start of `s + q` is trimming the start of `s`, then appending `q`, unless `s` is blank. */
  lemma {:induction false} TrimStartKeepsSuffix(s: string, q: string)
    requires forall i :: 0 <= i < |q| ==> IsSpace(q[i])
    ensures TrimEnd(TrimStart(s + q)) == TrimEnd(TrimStart(s))
    decreases |s|
  {
    if s == [] {
      assert s + q == q;
      TrimStartPadding(q, []);
      assert q + [] == q;
    } else if IsSpace(s[0]) {
      assert (s + q)[1..] == s[1..] + q;
      TrimStartKeepsSuffix(s[1..], q);
    } else {
      TrimEndPadding(s, q);
    }
  }

  lemma LowerNumeric(s: string)
    requires forall i :: 0 <= i < |s| ==> IsNumeric(s[i])
    ensures Lower(s) == s
  {
  }

  lemma {:induction false} RemoveSpacesNone(s: string)
    requires forall i :: 0 <= i < |s| ==> !IsSpace(s[i])
    ensures RemoveSpaces(s) == s
    decreases |s|
  {
    if s != [] {
      RemoveSpacesNone(s[1..]);
    }
  }

  /** A filtered string holds no white space, so it is trimmed. */
  lemma FilterChars(s: string)
    ensures Trimmed(Seqs.Filter(IsNumeric, s))
  {
    var f := Seqs.Filter(IsNumeric, s);
    if f != [] {
      assert f[0] in f && f[|f| - 1] in f;
    }
  }
}
