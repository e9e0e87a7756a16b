/**
 * `cleanLaTeX`: a fixed sequence of sixteen global regular-expression replacements that strip
 * LaTeX markup, followed by collapsing white space and trimming.  Each replacement is a
 * left-to-right scan that, at every position, either rewrites the leftmost match there and
 * jumps past it, or copies one character.
 */
module LatexCleanup {

  import opened Wrappers
  import opened Strings

  /** One replacement pass.  Every pattern starts with a backslash. */
  datatype Rule =
    | Literal(pat: string, rep: string)  // a fixed pattern and its fixed replacement
    | Frac                               // `\frac{A}{B}` to `(A)/(B)`
    | Sqrt                               // `\sqrt{A}` to `sqrt(A)`
    | SqrtIndex                          // `\sqrt[N]{A}` to `sqrt[N](A)`
    | Text                               // `\text{A}` to `A`
    | Unescape                           // a backslash before `( ) [ ]` is dropped

  const Brackets: set<char> := {'(', ')', '[', ']'}

  /** Length of the longest prefix of `t` without the character `c` (a `[^c]+` run). */
  function Span(t: string, c: char): (n: nat)
    ensures n <= |t|
    ensures forall i :: 0 <= i < n ==> t[i] != c
    ensures n < |t| ==> t[n] == c
  {
    if t == [] || t[0] == c then 0 else 1 + Span(t[1..], c)
  }

  /** `t` begins with `open`, a non-empty run of characters other than `close`, and `close`;
    * yields the run and the length of the whole match.  A `[^c]+` run is always maximal, so
    * backtracking into the run can never succeed and the match is unique. */
  function Group(t: string, open: string, close: char): (r: Option<(string, nat)>)
    ensures r.Some? ==> StartsWith(t, open)
    ensures r.Some? ==> |open| < r.value.1 <= |t| && r.value.0 == t[|open|..r.value.1 - 1]
  {
    if !StartsWith(t, open) then None
    else
      var n := Span(t[|open|..], close);
      if n == 0 || |open| + n == |t| then None
      else Some((t[|open|..|open| + n], |open| + n + 1))
  }

  /** `open A close1 mid B close2`, where `A` and `B` are non-empty runs without `close1` and
    * `close2` respectively and `mid` starts with `close1`: yields `A`, `B` and the match length. */
  function TwoGroups(t: string, open: string, close1: char, mid: string, close2: char)
    : (r: Option<(string, string, nat)>)
    requires mid != [] && mid[0] == close1
    ensures r.Some? ==> StartsWith(t, open) && |open| < r.value.2 <= |t|
  {
    match Group(t, open, close1)
    case None => None
    case Some((a, n)) =>
      match Group(t[n - 1..], mid, close2)
      case None => None
      case Some((b, m)) => Some((a, b, n - 1 + m))
  }

  /** The replacement text and the match length when `rule` matches at the start of `t`. */
  function MatchAt(rule: Rule, t: string): (r: Option<(string, nat)>)
    ensures r.Some? ==> 2 <= r.value.1 <= |t|
  {
    match rule
    case Literal(pat, rep) =>
      if |pat| >= 2 && StartsWith(t, pat) then Some((rep, |pat|)) else None
    case Frac =>
      (match TwoGroups(t, "\\frac{", '}', "}{", '}')
       case None => None
       case Some((a, b, n)) => Some(("(" + a + ")/(" + b + ")", n)))
    case Sqrt =>
      (match Group(t, "\\sqrt{", '}')
       case None => None
       case Some((a, n)) => Some(("sqrt(" + a + ")", n)))
    case SqrtIndex =>
      (match TwoGroups(t, "\\sqrt[", ']', "]{", '}')
       case None => None
       case Some((a, b, n)) => Some(("sqrt[" + a + "](" + b + ")", n)))
    case Text =>
      (match Group(t, "\\text{", '}')
       case None => None
       case Some((a, n)) => Some((a, n)))
    case Unescape =>
      if |t| >= 2 && t[0] == '\\' && t[1] in Brackets then Some(([t[1]], 2)) else None
  }

  /** `s.replace(pattern, replacement)` with the global flag. */
  function RewriteAll(rule: Rule, s: string): string
    decreases |s|
  {
    if s == [] then []
    else
      match MatchAt(rule, s)
      case Some((rep, n)) => rep + RewriteAll(rule, s[n..])
      case None => [s[0]] + RewriteAll(rule, s[1..])
  }

  /** The first eleven passes, in source order: delimiters, fractions, `\left`/`\right` and
    * roots. */
  const CommandPasses: seq<Rule> := [
    Literal("\\(", ""),
    Literal("\\)", ""),
    Literal("\\[", ""),
    Literal("\\]", ""),
    Frac,
    Literal("\\left(", "("),
    Literal("\\right)", ")"),
    Literal("\\left[", "["),
    Literal("\\right]", "]"),
    Sqrt,
    SqrtIndex
  ]

  const OpenBrace: Rule := Literal("\\{", "{")
  const CloseBrace: Rule := Literal("\\}", "}")

  /** The first fourteen passes: the commands, then `\text` and the escaped braces. */
  const MarkupPasses: seq<Rule> := CommandPasses + [Text, OpenBrace, CloseBrace]

  /** Pass fifteen: every pair of backslashes is dropped. */
  const DropDoubleBackslash: Rule := Literal("\\\\", "")

  function ApplyAll(rules: seq<Rule>, s: string): string
    decreases |rules|
  {
    if rules == [] then s else ApplyAll(rules[1..], RewriteAll(rules[0], s))
  }

  /** The text after all sixteen passes. */
  function Unescaped(text: string): string
  {
    RewriteAll(Unescape, RewriteAll(DropDoubleBackslash, ApplyAll(MarkupPasses, text)))
  }

  /** `cleanLaTeX(text)`: the empty string is returned as it is. */
  function CleanLaTeX(text: string): (r: string)
    ensures text == [] ==> r == []
  {
    if text == [] then text else Trim(Collapse(Unescaped(text)))
  }

  // ---- white space of the result ---------------------------------------------------------

  /** The cleaned text has no white space at either end, and inside it white space occurs only
    * as single plain spaces. */
  lemma CleanLaTeXWhiteSpace(text: string)
    ensures Trimmed(CleanLaTeX(text))
    ensures NoDoubleSpace(CleanLaTeX(text)) && OnlyPlainSpaces(CleanLaTeX(text))
  {
    if text != [] {
      TrimCollapseNormal(Unescaped(text));
    }
  }

  /** Collapsing and then trimming leaves single plain spaces between words only. */
  lemma TrimCollapseNormal(u: string)
    ensures Trimmed(Trim(Collapse(u)))
    ensures NoDoubleSpace(Trim(Collapse(u))) && OnlyPlainSpaces(Trim(Collapse(u)))
  {
    TrimIsTrimmed(Collapse(u));
    CollapseNormal(u);
    TrimKeepsNormal(Collapse(u));
  }

  /** Trimming a text whose white space is single plain spaces keeps it so. */
  lemma TrimKeepsNormal(c: string)
    requires NoDoubleSpace(c) && OnlyPlainSpaces(c)
    ensures NoDoubleSpace(Trim(c)) && OnlyPlainSpaces(Trim(c))
  {
    var t := TrimStart(c);
    NormalSlice(c, |c| - |t|, |c|);
    NormalSlice(t, 0, |TrimEnd(t)|);
  }

  // ---- escaped brackets do not survive ---------------------------------------------------

  /** Characters that may follow a backslash at the start of a match of `rule`. */
  function Keys(rule: Rule): set<char>
  {
    match rule
    case Literal(pat, _) => if |pat| >= 2 then {pat[1]} else {}
    case Frac => {'f'}
    case Sqrt => {'s'}
    case SqrtIndex => {'s'}
    case Text => {'t'}
    case Unescape => Brackets
  }

  /** A fixed pattern of at least two characters that starts with a backslash, as all of the
    * source's do. */
  predicate BackslashLed(rule: Rule) {
    rule.Literal? ==> |rule.pat| >= 2 && rule.pat[0] == '\\'
  }

  lemma StartsWithHead(t: string, w: string)
    requires StartsWith(t, w) && |w| >= 2
    ensures t[0] == w[0] && t[1] == w[1]
  {
    assert t[..|w|] == w;
  }

  /** Every match starts with a backslash and one of the rule's key characters. */
  lemma MatchNeedsKey(rule: Rule, t: string)
    requires BackslashLed(rule)
    requires MatchAt(rule, t).Some?
    ensures |t| >= 2 && t[0] == '\\' && t[1] in Keys(rule)
  {
    match rule
    case Literal(pat, _) => StartsWithHead(t, pat);
    case Frac => StartsWithHead(t, "\\frac{");
    case Sqrt => StartsWithHead(t, "\\sqrt{");
    case SqrtIndex => StartsWithHead(t, "\\sqrt[");
    case Text => StartsWithHead(t, "\\text{");
    case Unescape =>
  }

  /** The head of a rewritten text: a text not starting with a match keeps its first character. */
  lemma RewriteHead(rule: Rule, s: string)
    requires s != [] && MatchAt(rule, s).None?
    ensures RewriteAll(rule, s) != [] && RewriteAll(rule, s)[0] == s[0]
  {
  }

  /** Dropping every `\\` pair leaves no two backslashes in a row: pairs are removed from the
    * left of each run, so at most one backslash of a run survives. */
  lemma {:induction false} DropPairsLeavesNoDouble(s: string)
    ensures NoPair(RewriteAll(DropDoubleBackslash, s), '\\', {'\\'})
    decreases |s|
  {
    var rule := DropDoubleBackslash;
    if s != [] {
      match MatchAt(rule, s)
      case Some((rep, n)) =>
        assert rep == [] && n == 2;
        DropPairsLeavesNoDouble(s[2..]);
        assert RewriteAll(rule, s) == RewriteAll(rule, s[2..]);
      case None =>
        var tail := RewriteAll(rule, s[1..]);
        DropPairsLeavesNoDouble(s[1..]);
        if s[0] == '\\' && |s| >= 2 {
          assert s[..2] == [s[0], s[1]];
          assert s[..2] != "\\\\";
          if MatchAt(rule, s[1..]).Some? {
            MatchNeedsKey(rule, s[1..]);
          }
          RewriteHead(rule, s[1..]);
        }
        NoPairCons(s[0], tail, '\\', {'\\'});
    }
  }

  /** Without two backslashes in a row, dropping the backslash before each bracket leaves no
    * backslash before a bracket. */
  lemma {:induction false} UnescapeLeavesNoEscapedBracket(s: string)
    requires NoPair(s, '\\', {'\\'})
    ensures NoPair(RewriteAll(Unescape, s), '\\', Brackets)
    decreases |s|
  {
    if s != [] {
      match MatchAt(Unescape, s)
      case Some((rep, n)) =>
        NoPairSlice(s, '\\', {'\\'}, 2, |s|);
        UnescapeLeavesNoEscapedBracket(s[2..]);
        assert RewriteAll(Unescape, s) == [s[1]] + RewriteAll(Unescape, s[2..]);
        NoPairCons(s[1], RewriteAll(Unescape, s[2..]), '\\', Brackets);
      case None =>
        var tail := RewriteAll(Unescape, s[1..]);
        NoPairSlice(s, '\\', {'\\'}, 1, |s|);
        UnescapeLeavesNoEscapedBracket(s[1..]);
        if s[0] == '\\' && |s| >= 2 {
          assert s[1] != '\\' && s[1] !in Brackets;
          assert MatchAt(Unescape, s[1..]).None?;
          RewriteHead(Unescape, s[1..]);
        }
        NoPairCons(s[0], tail, '\\', Brackets);
    }
  }

  /** The cleaned text never has a backslash directly before `(`, `)`, `[` or `]`. */
  lemma CleanLaTeXNoEscapedBracket(text: string)
    ensures NoPair(CleanLaTeX(text), '\\', Brackets)
  {
    if text != [] {
      FinalPassesNoEscapedBracket(ApplyAll(MarkupPasses, text));
    }
  }

  lemma FinalPassesNoEscapedBracket(before: string)
    ensures NoPair(Trim(Collapse(RewriteAll(Unescape, RewriteAll(DropDoubleBackslash, before)))), '\\', Brackets)
  {
    var dropped := RewriteAll(DropDoubleBackslash, before);
    DropPairsLeavesNoDouble(before);
    var unescaped := RewriteAll(Unescape, dropped);
    UnescapeLeavesNoEscapedBracket(dropped);
    CollapseKeepsNoPair(unescaped, '\\', Brackets);
    var c := Collapse(unescaped);
    var t := TrimStart(c);
    NoPairSlice(c, '\\', Brackets, |c| - |t|, |c|);
    NoPairSlice(t, '\\', Brackets, 0, |TrimEnd(t)|);
  }

  // ---- what a second cleaning does -------------------------------------------------------

  /** A text with no match of `rule` at its start keeps its first character. */
  lemma RewriteStep(rule: Rule, s: string)
    requires s != [] && MatchAt(rule, s).None?
    ensures RewriteAll(rule, s) == [s[0]] + RewriteAll(rule, s[1..])
  {
  }

  /** A rule cannot match where the text does not start with a backslash and one of its keys. */
  lemma NoMatchWithoutKey(rule: Rule, t: string)
    requires BackslashLed(rule)
    requires t != [] && (t[0] != '\\' || |t| < 2 || t[1] !in Keys(rule))
    ensures MatchAt(rule, t).None?
  {
    if MatchAt(rule, t).Some? {
      MatchNeedsKey(rule, t);
    }
  }

  lemma ConsSplit(p: string, q: string)
    requires p != []
    ensures [p[0]] + (p[1..] + q) == p + q
  {
  }

  /** A pass copies a prefix without backslashes unchanged. */
  lemma {:induction false} PlainPrefix(rule: Rule, p: string, s: string)
    requires BackslashLed(rule)
    requires '\\' !in p
    ensures RewriteAll(rule, p + s) == p + RewriteAll(rule, s)
    decreases |p|
  {
    if p == [] {
      assert p + s == s;
    } else {
      var t := p + s;
      assert p[0] in p;
      assert t[0] == p[0] && t[1..] == p[1..] + s;
      NoMatchWithoutKey(rule, t);
      RewriteStep(rule, t);
      PlainPrefix(rule, p[1..], s);
      ConsSplit(p, RewriteAll(rule, s));
    }
  }

  /** A pass leaves a text alone when no backslash in it is followed by one of the rule's keys. */
  lemma {:induction false} NoKeyIdentity(rule: Rule, s: string)
    requires BackslashLed(rule)
    requires NoPair(s, '\\', Keys(rule))
    ensures RewriteAll(rule, s) == s
    decreases |s|
  {
    if s != [] {
      NoMatchWithoutKey(rule, s);
      NoPairSlice(s, '\\', Keys(rule), 1, |s|);
      NoKeyIdentity(rule, s[1..]);
    }
  }

  /** A run of passes leaves a text alone when none of their keys follows a backslash in it. */
  lemma {:induction false} NoKeyPasses(rules: seq<Rule>, s: string, keys: set<char>)
    requires forall i :: 0 <= i < |rules| ==> BackslashLed(rules[i]) && Keys(rules[i]) <= keys
    requires NoPair(s, '\\', keys)
    ensures ApplyAll(rules, s) == s
    decreases |rules|
  {
    if rules != [] {
      NoKeyIdentity(rules[0], s);
      NoKeyPasses(rules[1..], s, keys);
    }
  }

  lemma {:induction false} ApplyAllAppend(r1: seq<Rule>, r2: seq<Rule>, s: string)
    ensures ApplyAll(r1 + r2, s) == ApplyAll(r2, ApplyAll(r1, s))
    decreases |r1|
  {
    if r1 == [] {
      assert r1 + r2 == r2;
    } else {
      assert (r1 + r2)[0] == r1[0] && (r1 + r2)[1..] == r1[1..] + r2;
      ApplyAllAppend(r1[1..], r2, RewriteAll(r1[0], s));
    }
  }

  lemma MarkupSplit(s: string)
    ensures ApplyAll(MarkupPasses, s)
         == RewriteAll(CloseBrace, RewriteAll(OpenBrace, RewriteAll(Text, ApplyAll(CommandPasses, s))))
  {
    ApplyAllAppend(CommandPasses, [Text, OpenBrace, CloseBrace], s);
    ApplyThree(Text, OpenBrace, CloseBrace, ApplyAll(CommandPasses, s));
  }

  lemma ApplyThree(a: Rule, b: Rule, c: Rule, s: string)
    ensures ApplyAll([a, b, c], s) == RewriteAll(c, RewriteAll(b, RewriteAll(a, s)))
  {
    var s1 := RewriteAll(a, s);
    var s2 := RewriteAll(b, s1);
    assert [a, b, c][0] == a && [a, b, c][1..] == [b, c];
    assert ApplyAll([a, b, c], s) == ApplyAll([b, c], s1);
    assert [b, c][0] == b && [b, c][1..] == [c];
    assert ApplyAll([b, c], s1) == ApplyAll([c], s2);
    assert [c][1..] == [];
    assert ApplyAll([c], s2) == RewriteAll(c, s2);
  }

  /** The keys of the eleven command passes. */
  const CommandKeys: set<char> := {'(', ')', '[', ']', 'f', 'l', 'r', 's'}

  lemma CommandPassesLed()
    ensures forall i :: 0 <= i < |CommandPasses| ==> BackslashLed(CommandPasses[i]) && Keys(CommandPasses[i]) <= CommandKeys
  {
  }

  /** A text whose white space is already single plain spaces between words, and which has no
    * backslash, is a fixed point of the cleaner. */
  lemma CleanLaTeXPlain(s: string)
    requires '\\' !in s
    requires Trimmed(s) && NoDoubleSpace(s) && OnlyPlainSpaces(s)
    ensures CleanLaTeX(s) == s
  {
    if s != [] {
      assert NoPair(s, '\\', CommandKeys + {'t', '{', '}', '\\'} + Brackets);
      CommandPassesLed();
      NoKeyPasses(CommandPasses, s, CommandKeys);
      NoKeyIdentity(Text, s);
      NoKeyIdentity(OpenBrace, s);
      NoKeyIdentity(CloseBrace, s);
      MarkupSplit(s);
      NoKeyIdentity(DropDoubleBackslash, s);
      NoKeyIdentity(Unescape, s);
      CollapseOfNormal(s);
      TrimOfTrimmed(s);
    }
  }

  /** Cleaning twice changes nothing when the first cleaning leaves no backslash. */
  lemma CleanLaTeXIdempotentWithoutBackslash(text: string)
    requires '\\' !in CleanLaTeX(text)
    ensures CleanLaTeX(CleanLaTeX(text)) == CleanLaTeX(text)
  {
    CleanLaTeXWhiteSpace(text);
    CleanLaTeXPlain(CleanLaTeX(text));
  }

  /** A pass copies a text without backslashes unchanged. */
  lemma PlainIdentity(rule: Rule, s: string)
    requires BackslashLed(rule)
    requires '\\' !in s
    ensures RewriteAll(rule, s) == s
  {
    PlainPrefix(rule, s, []);
    assert s + [] == s;
  }

  /** A pass copies a backslash followed by a character that is not one of its keys. */
  lemma SkipPair(rule: Rule, c: char, s: string)
    requires BackslashLed(rule)
    requires c != '\\' && c !in Keys(rule)
    ensures RewriteAll(rule, ['\\', c] + s) == ['\\', c] + RewriteAll(rule, s)
  {
    var t := ['\\', c] + s;
    NoMatchWithoutKey(rule, t);
    RewriteStep(rule, t);
    assert t[1..] == [c] + s;
    PlainPrefix(rule, [c], s);
  }

  /** The length of a `[^c]+` run ending at the first `c`. */
  lemma {:induction false} SpanTo(x: string, c: char, s: string)
    requires c !in x
    ensures Span(x + [c] + s, c) == |x|
    decreases |x|
  {
    if x != [] {
      assert x[0] in x;
      assert (x + [c] + s)[1..] == x[1..] + [c] + s;
      SpanTo(x[1..], c, s);
    } else {
      assert (x + [c] + s)[0] == c;
    }
  }

  /** A word the cleaner leaves alone: no backslash, no closing brace, no white space. */
  predicate PlainWord(x: string) {
    x != [] && forall i :: 0 <= i < |x| ==> x[i] != '\\' && x[i] != '}' && !IsSpace(x[i])
  }

  /** `\text\{x}`: the opening brace is escaped. */
  function EscapedText(x: string): string {
    "\\t" + "ext" + "\\{" + x + "}"
  }

  /** `\text{x}`. */
  function TextCommand(x: string): string {
    "\\t" + "ext{" + x + "}"
  }

  lemma PlainWordFacts(x: string)
    requires PlainWord(x)
    ensures '\\' !in x && '}' !in x
    ensures '\\' !in x + "}" && '\\' !in "ext{" + x + "}" && '\\' !in "{" + x + "}"
  {
  }

  /** A pass whose keys include neither `t` nor `{` leaves `\text\{x}` alone. */
  lemma EscapedTextIdentity(rule: Rule, x: string)
    requires BackslashLed(rule) && 't' !in Keys(rule) && '{' !in Keys(rule)
    requires PlainWord(x)
    ensures RewriteAll(rule, EscapedText(x)) == EscapedText(x)
  {
    EscapedBraceKept(rule, x);
    PlainPrefix(rule, "ext", "\\{" + x + "}");
    EscapedTextParts(x);
    SkipPair(rule, 't', "ext" + ("\\{" + x + "}"));
  }

  /** A pass whose keys do not include `t` leaves `\text{x}` alone. */
  lemma TextCommandIdentity(rule: Rule, x: string)
    requires BackslashLed(rule) && 't' !in Keys(rule)
    requires PlainWord(x)
    ensures RewriteAll(rule, TextCommand(x)) == TextCommand(x)
  {
    PlainWordFacts(x);
    var tail := "ext{" + x + "}";
    PlainIdentity(rule, tail);
    assert TextCommand(x) == ['\\', 't'] + tail;
    SkipPair(rule, 't', tail);
  }

  lemma {:induction false} EscapedTextPasses(rules: seq<Rule>, x: string)
    requires forall i :: 0 <= i < |rules| ==> BackslashLed(rules[i]) && Keys(rules[i]) <= CommandKeys
    requires PlainWord(x)
    ensures ApplyAll(rules, EscapedText(x)) == EscapedText(x)
    decreases |rules|
  {
    if rules != [] {
      EscapedTextIdentity(rules[0], x);
      EscapedTextPasses(rules[1..], x);
    }
  }

  lemma {:induction false} TextCommandPasses(rules: seq<Rule>, x: string)
    requires forall i :: 0 <= i < |rules| ==> BackslashLed(rules[i]) && Keys(rules[i]) <= CommandKeys
    requires PlainWord(x)
    ensures ApplyAll(rules, TextCommand(x)) == TextCommand(x)
    decreases |rules|
  {
    if rules != [] {
      TextCommandIdentity(rules[0], x);
      TextCommandPasses(rules[1..], x);
    }
  }

  /** The `\text` pass finds no `\text{` in `\text\{x}`: the brace is still escaped. */
  lemma TextSkipsEscaped(x: string)
    requires PlainWord(x)
    ensures RewriteAll(Text, EscapedText(x)) == EscapedText(x)
  {
    var rest := "\\{" + x + "}";
    EscapedTextHead(x);
    RewriteStep(Text, EscapedText(x));
    EscapedBraceKept(Text, x);
    PlainPrefix(Text, "text", rest);
  }

  /** `\text\{x}` is a backslash, `text` and the escaped brace, and no `\text{` starts it. */
  lemma EscapedTextHead(x: string)
    ensures EscapedText(x) == ['\\'] + ("text" + ("\\{" + x + "}"))
    ensures MatchAt(Text, EscapedText(x)).None?
  {
    var w := EscapedText(x);
    assert w[..6][5] == '\\';
    assert !StartsWith(w, "\\text{");
  }

  /** A pass with no `{` key copies `\{x}` unchanged. */
  lemma EscapedBraceKept(rule: Rule, x: string)
    requires BackslashLed(rule) && '{' !in Keys(rule)
    requires PlainWord(x)
    ensures RewriteAll(rule, "\\{" + x + "}") == "\\{" + x + "}"
  {
    PlainWordFacts(x);
    assert "\\{" + x + "}" == ['\\', '{'] + (x + "}");
    SkipPair(rule, '{', x + "}");
    PlainIdentity(rule, x + "}");
  }

  /** The escaped-brace pass turns `\text\{x}` into `\text{x}`. */
  lemma OpenBraceOnEscaped(x: string)
    requires PlainWord(x)
    ensures RewriteAll(OpenBrace, EscapedText(x)) == TextCommand(x)
  {
    var rest := "\\{" + x + "}";
    OpenBraceStep(x);
    PlainPrefix(OpenBrace, "ext", rest);
    EscapedTextParts(x);
    SkipPair(OpenBrace, 't', "ext" + rest);
  }

  lemma OpenBraceStep(x: string)
    requires PlainWord(x)
    ensures RewriteAll(OpenBrace, "\\{" + x + "}") == "{" + x + "}"
  {
    PlainWordFacts(x);
    var rest := "\\{" + x + "}";
    assert StartsWith(rest, "\\{") && rest[2..] == x + "}";
    PlainIdentity(OpenBrace, x + "}");
  }

  lemma EscapedTextParts(x: string)
    ensures EscapedText(x) == ['\\', 't'] + ("ext" + ("\\{" + x + "}"))
    ensures TextCommand(x) == ['\\', 't'] + ("ext" + ("{" + x + "}"))
  {
  }

  /** The `\text` pass turns `\text{x}` into `x`. */
  lemma TextOnCommand(x: string)
    requires PlainWord(x)
    ensures RewriteAll(Text, TextCommand(x)) == x
  {
    PlainWordFacts(x);
    var h := TextCommand(x);
    assert StartsWith(h, "\\text{");
    assert h[6..] == x + "}" + [];
    SpanTo(x, '}', []);
    assert h[6..6 + |x|] == x;
    assert MatchAt(Text, h) == Some((x, 7 + |x|));
    assert h[7 + |x|..] == [];
    assert RewriteAll(Text, h) == x + RewriteAll(Text, []);
  }

  lemma TextCommandNormal(x: string)
    requires PlainWord(x)
    ensures Trimmed(TextCommand(x)) && NoDoubleSpace(TextCommand(x)) && OnlyPlainSpaces(TextCommand(x))
  {
    var h := TextCommand(x);
    forall i | 0 <= i < |h| ensures !IsSpace(h[i]) {
      if 6 <= i < 6 + |x| {
        assert h[i] == x[i - 6];
      }
    }
  }

  lemma CommandsKeepEscaped(x: string)
    requires PlainWord(x)
    ensures ApplyAll(CommandPasses, EscapedText(x)) == EscapedText(x)
  {
    CommandPassesLed();
    EscapedTextPasses(CommandPasses, x);
  }

  lemma BracesOnEscaped(x: string)
    requires PlainWord(x)
    ensures RewriteAll(CloseBrace, RewriteAll(OpenBrace, RewriteAll(Text, EscapedText(x)))) == TextCommand(x)
  {
    TextSkipsEscaped(x);
    OpenBraceOnEscaped(x);
    TextCommandIdentity(CloseBrace, x);
  }

  /** The markup passes turn `\text\{x}` into `\text{x}`. */
  lemma MarkupOnEscaped(x: string)
    requires PlainWord(x)
    ensures ApplyAll(MarkupPasses, EscapedText(x)) == TextCommand(x)
  {
    CommandsKeepEscaped(x);
    BracesOnEscaped(x);
    MarkupSplit(EscapedText(x));
  }

  /** One cleaning of `\text\{x}` gives `\text{x}`. */
  lemma CleanEscapedOnce(x: string)
    requires PlainWord(x)
    ensures CleanLaTeX(EscapedText(x)) == TextCommand(x)
  {
    var w := EscapedText(x);
    var h := TextCommand(x);
    MarkupOnEscaped(x);
    assert w != [];
    TextCommandIdentity(DropDoubleBackslash, x);
    TextCommandIdentity(Unescape, x);
    assert Unescaped(w) == h;
    TextCommandNormal(x);
    CollapseOfNormal(h);
    TrimOfTrimmed(h);
  }

  /** Cleaning `\text{x}` gives `x`. */
  lemma CleanCommandOnce(x: string)
    requires PlainWord(x)
    ensures CleanLaTeX(TextCommand(x)) == x
  {
    var h := TextCommand(x);
    PlainWordFacts(x);
    CommandPassesLed();
    TextCommandPasses(CommandPasses, x);
    TextOnCommand(x);
    PlainIdentity(OpenBrace, x);
    PlainIdentity(CloseBrace, x);
    MarkupSplit(h);
    PlainIdentity(DropDoubleBackslash, x);
    PlainIdentity(Unescape, x);
    assert Unescaped(h) == x;
    CollapseOfNormal(x);
    TrimOfTrimmed(x);
  }

  /** The cleaner is not idempotent: for any plain word `x`, cleaning `\text\{x}` gives
    * `\text{x}`, because the brace is unescaped after the `\text` pass has run, and cleaning
    * again gives `x`. */
  lemma CleanLaTeXNotIdempotent(x: string)
    requires PlainWord(x)
    ensures CleanLaTeX(EscapedText(x)) == TextCommand(x)
    ensures CleanLaTeX(CleanLaTeX(EscapedText(x))) == x
    ensures CleanLaTeX(CleanLaTeX(EscapedText(x))) != CleanLaTeX(EscapedText(x))
  {
    CleanEscapedOnce(x);
    CleanCommandOnce(x);
    assert |TextCommand(x)| == |x| + 7;
  }
}
