/**
 * The JavaScript string operations the core relies on: `\s`, `trim`, `toLowerCase`,
 * `includes`, `substring`, `.replace(/\s+/g, ...)`, `parseInt` and number formatting.
 * Strings are sequences of characters; lower-casing is ASCII only.
 */
module Strings {

  /** The characters JavaScript's `\s` and `String.prototype.trim` treat as white space
    * (ECMAScript WhiteSpace and LineTerminator). */
  predicate IsSpace(c: char) {
    c == ' ' || c == '\t' || c == '\n' || c == '\r' || c == '\U{0B}' || c == '\U{0C}'
    || c == '\U{A0}' || c == '\U{1680}' || ('\U{2000}' <= c <= '\U{200A}')
    || c == '\U{2028}' || c == '\U{2029}' || c == '\U{202F}' || c == '\U{205F}'
    || c == '\U{3000}' || c == '\U{FEFF}'
  }

  /** `\d`: an ASCII digit. */
  predicate IsDigit(c: char) {
    '0' <= c <= '9'
  }

  predicate IsUpper(c: char) {
    'A' <= c <= 'Z'
  }

  predicate IsLowerLetter(c: char) {
    'a' <= c <= 'z'
  }

  /** `[A-Z0-9]` under the `i` flag. */
  predicate IsAlnum(c: char) {
    IsUpper(c) || IsLowerLetter(c) || IsDigit(c)
  }

  function LowerChar(c: char): (r: char)
    ensures IsUpper(c) ==> IsLowerLetter(r)
    ensures !IsUpper(c) ==> r == c
  {
    if IsUpper(c) then (c as int + 32) as char else c
  }

  /** `toLowerCase`, restricted to ASCII letters. */
  function Lower(s: string): (r: string)
    ensures |r| == |s|
    ensures forall i :: 0 <= i < |s| ==> r[i] == LowerChar(s[i])
  {
    seq(|s|, i requires 0 <= i < |s| => LowerChar(s[i]))
  }

  lemma LowerAppend(a: string, b: string)
    ensures Lower(a + b) == Lower(a) + Lower(b)
  {
  }

  lemma LowerSlice(s: string, i: nat, j: nat)
    requires i <= j <= |s|
    ensures Lower(s[i..j]) == Lower(s)[i..j]
  {
  }

  /** `s` begins with `w`. */
  predicate StartsWith(s: string, w: string) {
    |w| <= |s| && s[..|w|] == w
  }

  /** `s` begins with `w` ignoring ASCII case (`w` is given in lower case). */
  predicate StartsWithCI(s: string, w: string) {
    |w| <= |s| && Lower(s[..|w|]) == w
  }

  /** `w` occurs in `s` at position `i`. */
  predicate OccursAt(s: string, w: string, i: int) {
    0 <= i && i + |w| <= |s| && s[i..i + |w|] == w
  }

  /** `s.includes(w)`. */
  predicate Contains(s: string, w: string) {
    exists i :: 0 <= i <= |s| - |w| && OccursAt(s, w, i)
  }

  lemma ContainsMiddle(a: string, w: string, b: string)
    ensures Contains(a + w + b, w)
  {
    assert OccursAt(a + w + b, w, |a|) by {
      assert (a + w + b)[|a|..|a| + |w|] == w;
    }
  }

  lemma ContainsInfix(s: string, w: string, a: string, b: string)
    requires Contains(s, w)
    ensures Contains(a + s + b, w)
  {
    var i :| 0 <= i <= |s| - |w| && OccursAt(s, w, i);
    assert OccursAt(a + s + b, w, |a| + i) by {
      assert (a + s + b)[|a| + i..|a| + i + |w|] == s[i..i + |w|];
    }
  }

  /** Drops leading white space (`trimStart`). */
  function TrimStart(s: string): (r: string)
    ensures |r| <= |s| && r == s[|s| - |r|..]
    ensures r == [] || !IsSpace(r[0])
    ensures forall i :: 0 <= i < |s| - |r| ==> IsSpace(s[i])
    decreases |s|
  {
    if s != [] && IsSpace(s[0]) then TrimStart(s[1..]) else s
  }

  /** Drops trailing white space (`trimEnd`). */
  function TrimEnd(s: string): (r: string)
    ensures |r| <= |s| && r == s[..|r|]
    ensures r == [] || !IsSpace(r[|r| - 1])
    ensures forall i :: |r| <= i < |s| ==> IsSpace(s[i])
    decreases |s|
  {
    if s != [] && IsSpace(s[|s| - 1]) then TrimEnd(s[..|s| - 1]) else s
  }

  /** `String.prototype.trim`. */
  function Trim(s: string): string
  {
    TrimEnd(TrimStart(s))
  }

  /** No white space at either end. */
  predicate Trimmed(s: string) {
    s == [] || (!IsSpace(s[0]) && !IsSpace(s[|s| - 1]))
  }

  lemma TrimIsTrimmed(s: string)
    ensures Trimmed(Trim(s))
    ensures |Trim(s)| <= |s|
  {
    var t := TrimStart(s);
    var r := TrimEnd(t);
    if r != [] {
      assert r[0] == t[0];
    }
  }

  /** A trimmed string is its own trim. */
  lemma TrimOfTrimmed(s: string)
    requires Trimmed(s)
    ensures Trim(s) == s
  {
  }

  /** Trimming only removes white space: a string with a non-space character trims to a non-empty one. */
  lemma TrimEmptyIffBlank(s: string)
    ensures Trim(s) == [] <==> forall i :: 0 <= i < |s| ==> IsSpace(s[i])
  {
    var t := TrimStart(s);
    if t != [] {
      assert !IsSpace(t[0]);
      assert TrimEnd(t) != [];
      assert !IsSpace(s[|s| - |t|]);
    }
  }

  /** The space characters `\s+` would consume from the front of `s`. */
  function DropSpaces(s: string): (r: string)
    ensures r == TrimStart(s)
    decreases |s|
  {
    if s != [] && IsSpace(s[0]) then DropSpaces(s[1..]) else s
  }

  /** `.replace(/\s+/g, ' ')`: every maximal run of white space becomes one plain space. */
  function Collapse(s: string): (r: string)
    ensures s == [] <==> r == []
    ensures s != [] ==> r[0] == (if IsSpace(s[0]) then ' ' else s[0])
    decreases |s|
  {
    if s == [] then []
    else if IsSpace(s[0]) then [' '] + Collapse(DropSpaces(s[1..]))
    else [s[0]] + Collapse(s[1..])
  }

  /** No two white-space characters in a row. */
  predicate NoDoubleSpace(s: string) {
    forall i :: 0 <= i < |s| - 1 ==> !(IsSpace(s[i]) && IsSpace(s[i + 1]))
  }

  /** Every white-space character is a plain space. */
  predicate OnlyPlainSpaces(s: string) {
    forall i :: 0 <= i < |s| ==> IsSpace(s[i]) ==> s[i] == ' '
  }

  /** After collapsing, white space occurs only as single plain spaces. */
  lemma {:induction false} CollapseNormal(s: string)
    ensures NoDoubleSpace(Collapse(s)) && OnlyPlainSpaces(Collapse(s))
    decreases |s|
  {
    if s == [] {
    } else if IsSpace(s[0]) {
      var t := DropSpaces(s[1..]);
      CollapseNormal(t);
      NormalCons(' ', Collapse(t));
    } else {
      CollapseNormal(s[1..]);
      NormalCons(s[0], Collapse(s[1..]));
    }
  }

  /** Putting a plain character, or a space before a non-space, in front keeps a string normal. */
  lemma NormalCons(c: char, t: string)
    requires NoDoubleSpace(t) && OnlyPlainSpaces(t)
    requires IsSpace(c) ==> c == ' ' && (t != [] ==> !IsSpace(t[0]))
    ensures NoDoubleSpace([c] + t) && OnlyPlainSpaces([c] + t)
  {
    var r := [c] + t;
    assert forall i :: 1 <= i < |r| ==> r[i] == t[i - 1];
  }

  /** The last character of a collapsed string is a space exactly when the input ended in white space. */
  lemma {:induction false} CollapseLast(s: string)
    requires s != []
    ensures Collapse(s) != []
    ensures Collapse(s)[|Collapse(s)| - 1] == (if IsSpace(s[|s| - 1]) then ' ' else s[|s| - 1])
    decreases |s|
  {
    if IsSpace(s[0]) {
      var t := DropSpaces(s[1..]);
      if t != [] {
        CollapseLast(t);
        assert t[|t| - 1] == s[|s| - 1];
      } else {
        assert IsSpace(s[|s| - 1]) by {
          if |s| > 1 { assert IsSpace(s[1..][|s| - 2]); }
        }
      }
    } else if |s| > 1 {
      CollapseLast(s[1..]);
    }
  }

  /** A string that is already normal is unchanged by collapsing. */
  lemma {:induction false} CollapseOfNormal(s: string)
    requires NoDoubleSpace(s) && OnlyPlainSpaces(s)
    ensures Collapse(s) == s
    decreases |s|
  {
    if s != [] {
      if IsSpace(s[0]) {
        assert |s| > 1 ==> !IsSpace(s[1]);
        assert DropSpaces(s[1..]) == s[1..];
      }
      CollapseOfNormal(s[1..]);
    }
  }

  /** No occurrence of `first` directly followed by a character of `second`. */
  predicate NoPair(s: string, first: char, second: set<char>) {
    forall i :: 0 <= i < |s| - 1 ==> !(s[i] == first && s[i + 1] in second)
  }

  /** Collapsing white space cannot create an adjacent pair of non-space characters. */
  lemma {:induction false} CollapseKeepsNoPair(s: string, first: char, second: set<char>)
    requires !IsSpace(first) && forall c :: c in second ==> !IsSpace(c)
    requires NoPair(s, first, second)
    ensures NoPair(Collapse(s), first, second)
    decreases |s|
  {
    if s != [] {
      var r := Collapse(s);
      if IsSpace(s[0]) {
        var t := DropSpaces(s[1..]);
        NoPairSlice(s, first, second, |s| - |t|, |s|);
        assert s[|s| - |t|..] == t;
        CollapseKeepsNoPair(t, first, second);
        NoPairCons(' ', Collapse(t), first, second);
      } else {
        var t := s[1..];
        NoPairSlice(s, first, second, 1, |s|);
        CollapseKeepsNoPair(t, first, second);
        if t != [] {
          assert Collapse(t)[0] == (if IsSpace(t[0]) then ' ' else t[0]);
          assert !(s[0] == first && s[1] in second);
        }
        NoPairCons(s[0], Collapse(t), first, second);
      }
    }
  }

  lemma NoPairCons(c: char, t: string, first: char, second: set<char>)
    requires NoPair(t, first, second)
    requires t != [] ==> !(c == first && t[0] in second)
    ensures NoPair([c] + t, first, second)
  {
    var r := [c] + t;
    forall i | 0 <= i < |r| - 1 ensures !(r[i] == first && r[i + 1] in second) {
      if i > 0 {
        assert r[i] == t[i - 1] && r[i + 1] == t[i];
      }
    }
  }

  /** A slice of a string without the pair has none either. */
  lemma NoPairSlice(s: string, first: char, second: set<char>, i: nat, j: nat)
    requires i <= j <= |s|
    requires NoPair(s, first, second)
    ensures NoPair(s[i..j], first, second)
  {
    assert forall k :: 0 <= k < j - i ==> s[i..j][k] == s[i + k];
  }

  /** A collapsed string contains the same non-space characters as its input. */
  lemma {:induction false} CollapseKeepsNonSpace(s: string, c: char)
    requires !IsSpace(c)
    ensures c in Collapse(s) <==> c in s
    decreases |s|
  {
    if s != [] {
      assert s == [s[0]] + s[1..];
      if IsSpace(s[0]) {
        var t := DropSpaces(s[1..]);
        CollapseKeepsNonSpace(t, c);
        DropSpacesKeepsNonSpace(s[1..], c);
      } else {
        CollapseKeepsNonSpace(s[1..], c);
      }
    }
  }

  /** Dropping leading white space keeps every non-space character. */
  lemma {:induction false} DropSpacesKeepsNonSpace(s: string, c: char)
    requires !IsSpace(c)
    ensures c in DropSpaces(s) <==> c in s
    decreases |s|
  {
    if s != [] && IsSpace(s[0]) {
      assert s == [s[0]] + s[1..];
      DropSpacesKeepsNonSpace(s[1..], c);
    }
  }

  /** `.replace(/\s+/g, '')`: all white space removed. */
  function RemoveSpaces(s: string): (r: string)
    ensures |r| <= |s|
    ensures forall i :: 0 <= i < |r| ==> !IsSpace(r[i])
    ensures forall c :: !IsSpace(c) ==> (c in r <==> c in s)
    decreases |s|
  {
    if s == [] then []
    else if IsSpace(s[0]) then RemoveSpaces(s[1..])
    else [s[0]] + RemoveSpaces(s[1..])
  }

  /** `s.substring(0, n)` for `n >= 0`. */
  function Take(s: string, n: nat): (r: string)
    ensures |r| == if |s| < n then |s| else n
    ensures r == s[..|r|]
  {
    if |s| <= n then s else s[..n]
  }

  /** `xs.join(sep)`. */
  function Join(xs: seq<string>, sep: string): string
    decreases |xs|
  {
    if xs == [] then []
    else if |xs| == 1 then xs[0]
    else xs[0] + sep + Join(xs[1..], sep)
  }

  lemma {:induction false} JoinContains(xs: seq<string>, sep: string, k: int)
    requires 0 <= k < |xs|
    ensures Contains(Join(xs, sep), xs[k])
    decreases |xs|
  {
    if |xs| == 1 {
      ContainsMiddle([], xs[0], []);
      assert [] + xs[0] + [] == xs[0];
    } else if k == 0 {
      ContainsMiddle([], xs[0], sep + Join(xs[1..], sep));
      assert [] + xs[0] + (sep + Join(xs[1..], sep)) == Join(xs, sep);
    } else {
      JoinContains(xs[1..], sep, k - 1);
      ContainsInfix(Join(xs[1..], sep), xs[k], xs[0] + sep, []);
      assert xs[0] + sep + Join(xs[1..], sep) + [] == Join(xs, sep);
    }
  }

  // ---- decimal numbers -------------------------------------------------------------------

  function DigitChar(d: nat): (c: char)
    requires d < 10
    ensures IsDigit(c)
  {
    ('0' as int + d) as char
  }

  function DigitValue(c: char): (d: nat)
    requires IsDigit(c)
    ensures d < 10
  {
    c as int - '0' as int
  }

  predicate AllDigits(s: string) {
    forall i :: 0 <= i < |s| ==> IsDigit(s[i])
  }

  /** `String(n)` / template interpolation of a non-negative integer. */
  function NatToString(n: nat): (r: string)
    ensures r != [] && AllDigits(r)
    decreases n
  {
    if n < 10 then [DigitChar(n)] else NatToString(n / 10) + [DigitChar(n % 10)]
  }

  /** `parseInt` of a run of ASCII digits (exact, no floating-point rounding). */
  function DigitsValue(s: string): nat
    requires AllDigits(s)
    decreases |s|
  {
    if s == [] then 0 else DigitsValue(s[..|s| - 1]) * 10 + DigitValue(s[|s| - 1])
  }

  /** Formatting then parsing a number gives it back. */
  lemma {:induction false} NatToStringRoundTrip(n: nat)
    ensures DigitsValue(NatToString(n)) == n
    decreases n
  {
    var r := NatToString(n);
    if n >= 10 {
      NatToStringRoundTrip(n / 10);
      assert r[..|r| - 1] == NatToString(n / 10);
    }
  }

  /** Distinct numbers are formatted differently. */
  lemma NatToStringInjective(m: nat, n: nat)
    requires NatToString(m) == NatToString(n)
    ensures m == n
  {
    NatToStringRoundTrip(m);
    NatToStringRoundTrip(n);
  }

  /** Every character of `s` is drawn from `a`. */
  predicate CharsIn(s: string, a: set<char>) {
    forall i :: 0 <= i < |s| ==> s[i] in a
  }

  /** A word with a character that never occurs in `s` is not a substring of `s`. */
  lemma AbsentCharNotContained(s: string, w: string, k: nat, a: set<char>)
    requires CharsIn(s, a)
    requires k < |w| && w[k] !in a
    ensures !Contains(s, w)
  {
    forall i | 0 <= i <= |s| - |w|
      ensures !OccursAt(s, w, i)
    {
      assert s[i..i + |w|][k] == s[i + k];
      assert s[i + k] in a;
    }
  }

  lemma StartsWithAppend(a: string, b: string)
    ensures StartsWith(a + b, a)
  {
    assert (a + b)[..|a|] == a;
  }

  lemma ContainsPrefix(w: string, b: string)
    ensures Contains(w + b, w)
  {
    assert OccursAt(w + b, w, 0) by {
      assert (w + b)[0..|w|] == w;
    }
  }

  lemma ContainsAfter(a: string, s: string, w: string)
    requires Contains(s, w)
    ensures Contains(a + s, w)
  {
    var i :| 0 <= i <= |s| - |w| && OccursAt(s, w, i);
    assert OccursAt(a + s, w, |a| + i) by {
      assert (a + s)[|a| + i..|a| + i + |w|] == s[i..i + |w|];
    }
  }

  lemma ContainsSelf(w: string)
    ensures Contains(w, w)
  {
    assert OccursAt(w, w, 0);
  }

  lemma ContainsBefore(a: string, b: string, w: string)
    requires Contains(a, w)
    ensures Contains(a + b, w)
  {
    var i :| 0 <= i <= |a| - |w| && OccursAt(a, w, i);
    assert OccursAt(a + b, w, i) by {
      assert (a + b)[i..i + |w|] == a[i..i + |w|];
    }
  }

  /** A substring of either part is a substring of the concatenation. */
  lemma ContainsExtend()
    ensures forall a, b, w {:trigger Contains(a + b, w)} ::
      (Contains(a, w) ==> Contains(a + b, w)) && (Contains(b, w) ==> Contains(a + b, w))
  {
    forall a, b, w
      ensures (Contains(a, w) ==> Contains(a + b, w)) && (Contains(b, w) ==> Contains(a + b, w))
    {
      if Contains(a, w) { ContainsBefore(a, b, w); }
      if Contains(b, w) { ContainsAfter(a, b, w); }
    }
  }

  /** A slice of normalised white space is normalised. */
  lemma NormalSlice(s: string, i: nat, j: nat)
    requires i <= j <= |s|
    requires NoDoubleSpace(s) && OnlyPlainSpaces(s)
    ensures NoDoubleSpace(s[i..j]) && OnlyPlainSpaces(s[i..j])
  {
    assert forall k :: 0 <= k < j - i ==> s[i..j][k] == s[i + k];
  }

  // ---- runs of characters ----------------------------------------------------------------

  /** Length of the longest prefix of `t` whose characters all satisfy `p`. */
  function Run(p: char -> bool, t: string): (n: nat)
    ensures n <= |t|
    ensures forall i :: 0 <= i < n ==> p(t[i])
    ensures n < |t| ==> !p(t[n])
    decreases |t|
  {
    if t == [] || !p(t[0]) then 0 else 1 + Run(p, t[1..])
  }

  lemma {:induction false} RunStops(p: char -> bool, t: string, k: nat)
    requires k <= |t| && (forall i :: 0 <= i < k ==> p(t[i])) && (k < |t| ==> !p(t[k]))
    ensures Run(p, t) == k
    decreases k
  {
    if k > 0 {
      RunStops(p, t[1..], k - 1);
    }
  }

  /** The run of a prefix that ends where the full run ends is the full run. */
  lemma {:induction false} RunPrefix(p: char -> bool, t: string, n: nat)
    requires n <= |t| && n == Run(p, t)
    ensures Run(p, t[..n]) == n
    decreases n
  {
    if n > 0 {
      assert t[..n][1..] == t[1..][..n - 1];
      RunPrefix(p, t[1..], n - 1);
    }
  }
}
