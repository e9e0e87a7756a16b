/**
 * The three case-insensitive regular expressions that pull an answer out of a question's text,
 * written as leftmost matchers:
 *
 *   ValueAfterKeyword:  (?:answer|correct answer|solution)[:\s]+([A-Z0-9]+(?:\.[0-9]+)?)
 *   ChoiceAfterKeyword: (?:answer|correct|solution)[:\s]+([A-D])
 *   ValueAfterIs:       (?:answer|correct|solution)\s+(?:is|are)[:\s]+([A-Z0-9]+(?:\.[0-9]+)?)
 *
 * `String.prototype.match` without the global flag returns the match that starts at the
 * smallest position; at one position the keyword alternatives are tried in order.  Every
 * quantifier here is followed by characters it cannot consume (separators are never letters or
 * digits), so the greedy first attempt is the only one that can succeed and no backtracking is
 * needed.  Case-insensitivity without the `u` flag folds ASCII letters only, which is what
 * `Lower` does.
 */
module AnswerPatterns {

  import opened Wrappers
  import opened Strings
  import Leftmost

  datatype Pattern = ValueAfterKeyword | ChoiceAfterKeyword | ValueAfterIs

  /** The keyword alternatives, in the order the regular expression lists them. */
  function Keywords(p: Pattern): seq<string>
  {
    match p
    case ValueAfterKeyword => ["answer", "correct answer", "solution"]
    case _ => ["answer", "correct", "solution"]
  }

  /** `[:\s]` */
  predicate IsSeparator(c: char) {
    c == ':' || IsSpace(c)
  }

  /** `[A-D]` under the `i` flag. */
  predicate IsChoice(c: char) {
    'A' <= c <= 'D' || 'a' <= c <= 'd'
  }

  /** Length of the greedy match of `[A-Z0-9]+(?:\.[0-9]+)?` at the start of `t`. */
  function NumberLike(t: string): (r: Option<nat>)
    ensures r.Some? ==> 0 < r.value <= |t|
  {
    var a := Run(IsAlnum, t);
    if a == 0 then None
    else if a < |t| && t[a] == '.' && Run(IsDigit, t[a + 1..]) > 0 then
      Some(a + 1 + Run(IsDigit, t[a + 1..]))
    else Some(a)
  }

  /** `[:\s]+([A-Z0-9]+(?:\.[0-9]+)?)` at the start of `t`: the captured group. */
  function SeparatedValue(t: string): Option<string>
  {
    var k := Run(IsSeparator, t);
    if k == 0 then None
    else
      match NumberLike(t[k..])
      case None => None
      case Some(n) => Some(t[k..k + n])
  }

  /** What follows the keyword, at the start of `t`: the captured group. */
  function Tail(p: Pattern, t: string): Option<string>
  {
    match p
    case ValueAfterKeyword => SeparatedValue(t)
    case ChoiceAfterKeyword =>
      var k := Run(IsSeparator, t);
      if k == 0 || k == |t| || !IsChoice(t[k]) then None else Some([t[k]])
    case ValueAfterIs =>
      var k := Run(IsSpace, t);
      if k == 0 then None
      else if StartsWithCI(t[k..], "is") then SeparatedValue(t[k + 2..])
      else if StartsWithCI(t[k..], "are") then SeparatedValue(t[k + 3..])
      else None
  }

  /** Keyword `w` starts `t` and the rest of the pattern matches after it. */
  predicate Leads(p: Pattern, w: string, t: string) {
    StartsWithCI(t, w) && Tail(p, t[|w|..]).Some?
  }

  /** The first keyword alternative that leads to a complete match at the start of `t`. */
  function FirstAlternative(p: Pattern, ws: seq<string>, t: string): Option<string>
    decreases |ws|
  {
    if ws == [] then None
    else if Leads(p, ws[0], t) then Tail(p, t[|ws[0]|..])
    else FirstAlternative(p, ws[1..], t)
  }

  /** The captured group of a match of `p` that starts at the first character of `t`. */
  function MatchHere(p: Pattern, t: string): Option<string>
  {
    FirstAlternative(p, Keywords(p), t)
  }

  function Matcher(p: Pattern): string -> Option<string>
  {
    t => MatchHere(p, t)
  }

  /** `s.match(p)?.[1]`: the group of the match at the smallest position. */
  function Search(p: Pattern, s: string): Option<string>
  {
    Leftmost.First(Matcher(p), s)
  }

  // ---- leftmost-match semantics ------------------------------------------------------------

  /** A match of `p` starts at position `i` of `s`. */
  predicate MatchesAt(p: Pattern, s: string, i: nat)
    requires i <= |s|
  {
    MatchHere(p, s[i..]).Some?
  }

  /** `Search` finds a match exactly when one starts somewhere, and then returns the group of
    * the match at the smallest such position. */
  lemma SearchIsLeftmost(p: Pattern, s: string)
    ensures Search(p, s).Some? <==> exists i :: 0 <= i <= |s| && MatchesAt(p, s, i)
    ensures Search(p, s).Some? ==>
      exists i :: 0 <= i <= |s| && Search(p, s) == MatchHere(p, s[i..])
        && MatchesAt(p, s, i) && forall j :: 0 <= j < i ==> !MatchesAt(p, s, j)
  {
    Leftmost.FirstIsLeftmost(Matcher(p), s);
    forall i | 0 <= i <= |s| ensures Matcher(p)(s[i..]) == MatchHere(p, s[i..]) {
    }
    if Search(p, s).Some? {
      var i :| 0 <= i <= |s| && Matcher(p)(s[i..]).Some?;
      assert MatchesAt(p, s, i);
    }
  }

  // ---- shape of the captured group ---------------------------------------------------------

  /** A word of `[A-Z0-9]+(?:\.[0-9]+)?`: letters and digits, then possibly a dot and digits. */
  predicate NumberLikeWord(v: string) {
    var a := Run(IsAlnum, v);
    0 < a && (a == |v| || (v[a] == '.' && a + 1 < |v| && forall i :: a < i < |v| ==> IsDigit(v[i])))
  }

  lemma NumberLikeShape(u: string)
    requires NumberLike(u).Some?
    ensures NumberLikeWord(u[..NumberLike(u).value])
  {
    var n := NumberLike(u).value;
    var v := u[..n];
    var a := Run(IsAlnum, u);
    assert forall i :: 0 <= i < a ==> v[i] == u[i];
    if n == a {
      RunPrefix(IsAlnum, u, n);
    } else {
      var d := Run(IsDigit, u[a + 1..]);
      assert n == a + 1 + d;
      assert v[a] == '.' && !IsAlnum(v[a]);
      RunStops(IsAlnum, v, a);
      assert forall i :: a < i < |v| ==> v[i] == u[a + 1..][i - a - 1];
    }
  }

  lemma SeparatedValueShape(t: string)
    requires SeparatedValue(t).Some?
    ensures NumberLikeWord(SeparatedValue(t).value)
  {
    var k := Run(IsSeparator, t);
    var u := t[k..];
    NumberLikeShape(u);
    assert u[..NumberLike(u).value] == SeparatedValue(t).value;
  }

  /** Pattern 2 captures one letter from A to D in either case; the other two capture a
    * number-like word. */
  lemma {:induction false} CapturedShape(p: Pattern, t: string)
    requires MatchHere(p, t).Some?
    ensures p.ChoiceAfterKeyword? ==> |MatchHere(p, t).value| == 1 && IsChoice(MatchHere(p, t).value[0])
    ensures !p.ChoiceAfterKeyword? ==> NumberLikeWord(MatchHere(p, t).value)
  {
    AlternativeShape(p, Keywords(p), t);
  }

  lemma {:induction false} AlternativeShape(p: Pattern, ws: seq<string>, t: string)
    requires FirstAlternative(p, ws, t).Some?
    ensures p.ChoiceAfterKeyword? ==>
      |FirstAlternative(p, ws, t).value| == 1 && IsChoice(FirstAlternative(p, ws, t).value[0])
    ensures !p.ChoiceAfterKeyword? ==> NumberLikeWord(FirstAlternative(p, ws, t).value)
    decreases |ws|
  {
    if Leads(p, ws[0], t) {
      var u := t[|ws[0]|..];
      match p
      case ValueAfterKeyword => SeparatedValueShape(u);
      case ChoiceAfterKeyword =>
      case ValueAfterIs =>
        var k := Run(IsSpace, u);
        if StartsWithCI(u[k..], "is") {
          SeparatedValueShape(u[k + 2..]);
        } else {
          SeparatedValueShape(u[k + 3..]);
        }
    } else {
      AlternativeShape(p, ws[1..], t);
    }
  }

  /** A number-like word has no white space, so the `.trim()` applied to the group is the
    * identity. */
  lemma NumberLikeTrimmed(v: string)
    requires NumberLikeWord(v)
    ensures Trim(v) == v
  {
    var a := Run(IsAlnum, v);
    assert IsAlnum(v[0]);
    if a == |v| {
      assert IsAlnum(v[|v| - 1]);
    } else {
      assert IsDigit(v[|v| - 1]);
    }
    TrimOfTrimmed(v);
  }

  /** The group returned by `Search` has the shape of the pattern's group. */
  lemma SearchShape(p: Pattern, s: string)
    requires Search(p, s).Some?
    ensures p.ChoiceAfterKeyword? ==> |Search(p, s).value| == 1 && IsChoice(Search(p, s).value[0])
    ensures !p.ChoiceAfterKeyword? ==> NumberLikeWord(Search(p, s).value)
  {
    SearchIsLeftmost(p, s);
    var i :| 0 <= i <= |s| && Search(p, s) == MatchHere(p, s[i..]) && MatchesAt(p, s, i);
    CapturedShape(p, s[i..]);
  }

  /** Whatever a pattern captures is left unchanged by `.trim()`. */
  lemma CapturedIsTrimmed(p: Pattern, s: string)
    requires Search(p, s).Some?
    ensures Trim(Search(p, s).value) == Search(p, s).value
  {
    SearchShape(p, s);
    var v := Search(p, s).value;
    if p.ChoiceAfterKeyword? {
      TrimOfTrimmed(v);
    } else {
      NumberLikeTrimmed(v);
    }
  }

  // ---- how the patterns relate ---------------------------------------------------------------

  /** A match at the start of `t` uses one of the keyword alternatives: the first one that
    * leads to a complete match. */
  lemma {:induction false} AlternativeUsed(p: Pattern, ws: seq<string>, t: string)
    requires FirstAlternative(p, ws, t).Some?
    ensures exists k :: (0 <= k < |ws| && StartsWithCI(t, ws[k])
                         && FirstAlternative(p, ws, t) == Tail(p, t[|ws[k]|..]))
    decreases |ws|
  {
    if !Leads(p, ws[0], t) {
      AlternativeUsed(p, ws[1..], t);
      var k :| 0 <= k < |ws[1..]| && StartsWithCI(t, ws[1..][k])
        && FirstAlternative(p, ws[1..], t) == Tail(p, t[|ws[1..][k]|..]);
      assert ws[k + 1] == ws[1..][k];
    }
  }

  /** Any alternative that leads to a complete match gives a match. */
  lemma {:induction false} AlternativeFound(p: Pattern, ws: seq<string>, t: string, k: nat)
    requires k < |ws| && Leads(p, ws[k], t)
    ensures FirstAlternative(p, ws, t).Some?
    decreases k
  {
    if k > 0 && !Leads(p, ws[0], t) {
      assert ws[1..][k - 1] == ws[k];
      AlternativeFound(p, ws[1..], t, k - 1);
    }
  }

  /** A keyword followed by white space and `is` or `are` is already a match of pattern 1 when
    * the keyword is `answer` or `solution`: the group is then the word `is` or `are` itself.  So
    * where pattern 1 finds nothing, pattern 3 can only match after the keyword `correct`. */
  lemma ValueAfterIsNeedsCorrect(t: string)
    requires MatchHere(ValueAfterIs, t).Some?
    requires MatchHere(ValueAfterKeyword, t).None?
    ensures StartsWithCI(t, "correct")
  {
    var ws := Keywords(ValueAfterIs);
    AlternativeUsed(ValueAfterIs, ws, t);
    var k :| 0 <= k < |ws| && StartsWithCI(t, ws[k])
      && FirstAlternative(ValueAfterIs, ws, t) == Tail(ValueAfterIs, t[|ws[k]|..]);
    if k != 1 {
      IsWordIsValue(t[|ws[k]|..]);
      AlternativeFound(ValueAfterKeyword, Keywords(ValueAfterKeyword), t, k);
    }
  }

  /** After white space, `is` or `are` followed by a separator is a separated value by itself. */
  lemma IsWordIsValue(u: string)
    requires Tail(ValueAfterIs, u).Some?
    ensures SeparatedValue(u).Some?
  {
    var k := Run(IsSpace, u);
    var v := u[k..];
    assert Lower(v[..2])[0] == LowerChar(v[0]);
    assert IsAlnum(u[k]) && !IsSeparator(u[k]);
    RunStops(IsSeparator, u, k);
  }

  // ---- an example ----------------------------------------------------------------------------

  /** No alternative applies when none of the keywords starts the text. */
  lemma {:induction false} NoAlternative(p: Pattern, ws: seq<string>, t: string)
    requires forall k :: 0 <= k < |ws| ==> !StartsWithCI(t, ws[k])
    ensures FirstAlternative(p, ws, t).None?
    decreases |ws|
  {
    if ws != [] {
      assert forall k :: 0 <= k < |ws| - 1 ==> ws[1..][k] == ws[k + 1];
      NoAlternative(p, ws[1..], t);
    }
  }

  /** Every keyword starts with `a`, `c` or `s`. */
  predicate KeywordInitial(c: char) {
    LowerChar(c) == 'a' || LowerChar(c) == 'c' || LowerChar(c) == 's'
  }

  /** No match starts at a character that no keyword starts with. */
  lemma NoKeywordInitial(p: Pattern, t: string)
    requires t != [] && !KeywordInitial(t[0])
    ensures MatchHere(p, t).None?
  {
    var ws := Keywords(p);
    forall k | 0 <= k < |ws| ensures !StartsWithCI(t, ws[k]) {
      assert ws[k][0] in "acs";
    }
    NoAlternative(p, ws, t);
  }

  /** "answer is" followed by anything that does not continue the word: the group is `is`. */
  lemma AnswerIsHere(rest: string)
    requires rest == [] || (!IsAlnum(rest[0]) && rest[0] != '.')
    ensures MatchHere(ValueAfterKeyword, "answer is" + rest) == Some("is")
  {
    AnswerPrefix(rest);
    SpaceIsValue(rest);
  }

  lemma AnswerPrefix(rest: string)
    ensures StartsWithCI("answer is" + rest, "answer")
    ensures ("answer is" + rest)[6..] == " is" + rest
  {
    var t := "answer is" + rest;
    assert t[..6] == "answer";
    assert Lower("answer") == "answer";
  }

  lemma SpaceIsValue(rest: string)
    requires rest == [] || (!IsAlnum(rest[0]) && rest[0] != '.')
    ensures SeparatedValue(" is" + rest) == Some("is")
  {
    var u := " is" + rest;
    RunStops(IsSeparator, u, 1);
    assert u[1..] == "is" + rest;
    RunStops(IsAlnum, u[1..], 2);
  }

  /** After a lead-in that cannot start a keyword, "answer is" followed by anything that does
    * not continue the word yields `is`: pattern 1 takes the word after the keyword. */
  lemma AnswerIsWord(lead: string, rest: string)
    requires forall j :: 0 <= j < |lead| ==> !KeywordInitial(lead[j])
    requires rest == [] || (!IsAlnum(rest[0]) && rest[0] != '.')
    ensures Search(ValueAfterKeyword, lead + ("answer is" + rest)) == Some("is")
  {
    var t := "answer is" + rest;
    var s := lead + t;
    forall j | 0 <= j < |lead| ensures MatchHere(ValueAfterKeyword, s[j..]).None? {
      assert s[j..][0] == lead[j];
      NoKeywordInitial(ValueAfterKeyword, s[j..]);
    }
    assert forall j :: 0 <= j < |lead| ==> Matcher(ValueAfterKeyword)(s[j..]).None?;
    Leftmost.FirstSkips(Matcher(ValueAfterKeyword), s, |lead|);
    assert s[|lead|..] == t;
    AnswerIsHere(rest);
  }

  /** "The answer is 42" yields `is`. */
  lemma AnswerIsFortyTwo(s: string)
    requires s == "The answer is 42"
    ensures Search(ValueAfterKeyword, s) == Some("is")
  {
    FortyTwoParts(s);
    AnswerIsWord("The ", " 42");
  }

  lemma FortyTwoParts(s: string)
    requires s == "The answer is 42"
    ensures s == "The " + ("answer is" + " 42")
    ensures forall j :: 0 <= j < |"The "| ==> !KeywordInitial("The "[j])
    ensures !IsAlnum(" 42"[0]) && " 42"[0] != '.'
  {
    assert "The " == ['T', 'h', 'e', ' '];
  }
}
