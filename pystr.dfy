/** A model of the Python `str` operations and regular-expression classes the
    outline agents rely on. Whitespace is Python's full `str.isspace` set;
    letters, digits and case are those of ASCII and the Latin-1 supplement;
    the regex classes `\w` and `\d` are restricted to ASCII. */
module PyStr {

  // ---------------------------------------------------------------------
  // Character classes
  // ---------------------------------------------------------------------

  /** `c.isspace()` (and the regex class `\s`). */
  predicate IsSpace(c: char) {
    c == ' ' || ('\t' <= c <= '\r') || ('\U{1C}' <= c <= '\U{1F}')
    || c == '\U{85}' || c == '\U{A0}' || c == '\U{1680}'
    || ('\U{2000}' <= c <= '\U{200A}') || c == '\U{2028}' || c == '\U{2029}'
    || c == '\U{202F}' || c == '\U{205F}' || c == '\U{3000}'
  }

  /** `c.isdigit()` and the regex class `\d`, on ASCII. */
  predicate IsDigit(c: char) { '0' <= c <= '9' }

  /** `c.isdigit()` in full on Latin-1: the ASCII digits and the superscript
      digits one, two and three. */
  predicate IsPyDigit(c: char) { IsDigit(c) || c == '\U{B2}' || c == '\U{B3}' || c == '\U{B9}' }

  predicate IsAsciiLetter(c: char) { 'a' <= c <= 'z' || 'A' <= c <= 'Z' }

  /** The regex class `\w` of a `str` pattern, on Latin-1: `_` and the
      characters `isalnum()` accepts, that is the letters (with the ordinal
      indicators and the micro sign), the digits, the superscript digits and
      the vulgar fractions. */
  predicate IsWordChar(c: char) {
    || IsAsciiLetter(c) || IsPyDigit(c) || c == '_'
    || c == '\U{AA}' || c == '\U{B5}' || c == '\U{BA}'
    || c == '\U{BC}' || c == '\U{BD}' || c == '\U{BE}'
    || ('\U{C0}' <= c <= '\U{FF}' && c != '\U{D7}' && c != '\U{F7}')
  }

  /** An upper-case letter: `A`-`Z` and the Latin-1 capitals. */
  predicate IsUpperChar(c: char) { 'A' <= c <= 'Z' || ('\U{C0}' <= c <= '\U{DE}' && c != '\U{D7}') }

  /** A lower-case character: `a`-`z`, the Latin-1 small letters, the micro
      sign and the two ordinal indicators. */
  predicate IsLowerChar(c: char) {
    || 'a' <= c <= 'z'
    || ('\U{DF}' <= c <= '\U{FF}' && c != '\U{F7}')
    || c == '\U{B5}' || c == '\U{AA}' || c == '\U{BA}'
  }

  /** `c.lower()` for one character. */
  function LowerChar(c: char): (r: char)
    ensures !IsUpperChar(r)
    ensures IsAsciiLetter(c) <==> IsAsciiLetter(r)
    ensures IsDigit(c) <==> IsDigit(r)
    ensures IsSpace(c) <==> IsSpace(r)
  {
    if IsUpperChar(c) then (c as int + 32) as char else c
  }

  // ---------------------------------------------------------------------
  // Whole-string operations
  // ---------------------------------------------------------------------

  /** `s.lower()` */
  function Lower(s: string): (r: string)
    ensures |r| == |s|
    ensures forall i :: 0 <= i < |s| ==> r[i] == LowerChar(s[i])
  {
    seq(|s|, i requires 0 <= i < |s| => LowerChar(s[i]))
  }

  /** `s.lstrip()` */
  function LStrip(s: string): (r: string)
    ensures |r| <= |s| && r == s[|s| - |r|..]
    ensures r == [] || !IsSpace(r[0])
    ensures forall i :: 0 <= i < |s| - |r| ==> IsSpace(s[i])
  {
    if s != [] && IsSpace(s[0]) then LStrip(s[1..]) else s
  }

  /** `s.rstrip()` */
  function RStrip(s: string): (r: string)
    ensures |r| <= |s| && r == s[..|r|]
    ensures r == [] || !IsSpace(r[|r| - 1])
    ensures forall i :: |r| <= i < |s| ==> IsSpace(s[i])
  {
    if s != [] && IsSpace(s[|s| - 1]) then RStrip(s[..|s| - 1]) else s
  }

  /** `s.strip()` */
  function Strip(s: string): (r: string)
    ensures |r| <= |s|
    ensures r == [] || (!IsSpace(r[0]) && !IsSpace(r[|r| - 1]))
  {
    RStrip(LStrip(s))
  }

  /** `s.rstrip(ch)` for one character. */
  function RStripChar(s: string, ch: char): (r: string)
    ensures |r| <= |s| && r == s[..|r|]
    ensures r == [] || r[|r| - 1] != ch
  {
    if s != [] && s[|s| - 1] == ch then RStripChar(s[..|s| - 1], ch) else s
  }

  /** The maximal run of non-whitespace characters that starts `s`. */
  function TakeWord(s: string): (w: string)
    ensures |w| <= |s| && w == s[..|w|]
    ensures forall i :: 0 <= i < |w| ==> !IsSpace(w[i])
    ensures |w| == |s| || IsSpace(s[|w|])
    ensures s != [] && !IsSpace(s[0]) ==> w != []
  {
    if s == [] || IsSpace(s[0]) then [] else [s[0]] + TakeWord(s[1..])
  }

  /** `s.split()`: the maximal runs of non-whitespace characters, in order. */
  function Split(s: string): (words: seq<string>)
    decreases |s|
  {
    var t := LStrip(s);
    if t == [] then []
    else
      var w := TakeWord(t);
      [w] + Split(t[|w|..])
  }

  /** `s.startswith(p)` */
  predicate StartsWith(s: string, p: string) {
    |p| <= |s| && s[..|p|] == p
  }

  /** `s.endswith(p)` */
  predicate EndsWith(s: string, p: string) {
    |p| <= |s| && s[|s| - |p|..] == p
  }

  /** `sub in s` */
  predicate Contains(s: string, sub: string) {
    StartsWith(s, sub) || (s != [] && Contains(s[1..], sub))
  }

  /** `any(k in s for k in keys)` */
  predicate ContainsAny(s: string, keys: seq<string>) {
    exists k :: 0 <= k < |keys| && Contains(s, keys[k])
  }

  /** `s.isdigit()`: non-empty and all digits. */
  predicate IsDigits(s: string) {
    s != [] && forall i :: 0 <= i < |s| ==> IsDigit(s[i])
  }

  /** `s.isdigit()` in full on Latin-1. */
  predicate IsPyDigits(s: string) {
    s != [] && forall i :: 0 <= i < |s| ==> IsPyDigit(s[i])
  }

  /** `int(s)` for a string of ASCII digits. */
  function DigitsValue(s: string): (n: nat)
    requires forall i :: 0 <= i < |s| ==> IsDigit(s[i])
  {
    if s == [] then 0
    else
      assert IsDigit(s[|s| - 1]);
      DigitsValue(s[..|s| - 1]) * 10 + (s[|s| - 1] as int - '0' as int)
  }

  /** `s.isupper()`: some cased character and no lower-case one. */
  predicate IsUpper(s: string) {
    (exists i :: 0 <= i < |s| && IsUpperChar(s[i]))
    && forall i :: 0 <= i < |s| ==> !IsLowerChar(s[i])
  }

  /** The scan behind `s.istitle()`: an upper-case letter may only follow an
      uncased character and a lower-case letter only a cased one. */
  predicate IsTitleFrom(s: string, previousCased: bool, sawCased: bool) {
    if s == [] then sawCased
    else if IsUpperChar(s[0]) then !previousCased && IsTitleFrom(s[1..], true, true)
    else if IsLowerChar(s[0]) then previousCased && IsTitleFrom(s[1..], true, true)
    else IsTitleFrom(s[1..], false, sawCased)
  }

  /** `s.istitle()` */
  predicate IsTitle(s: string) {
    IsTitleFrom(s, false, false)
  }

  /** `sep.join(parts)` */
  function Join(sep: string, parts: seq<string>): string {
    if parts == [] then []
    else if |parts| == 1 then parts[0]
    else parts[0] + sep + Join(sep, parts[1..])
  }

  /** The text up to (not including) the first newline: what the regex `.+` takes. */
  function TakeLine(s: string): (r: string)
    ensures |r| <= |s| && r == s[..|r|]
    ensures '\n' !in r
  {
    if s == [] || s[0] == '\n' then [] else [s[0]] + TakeLine(s[1..])
  }

  /** `re.sub(r'\s+', ' ', s)`: every maximal whitespace run becomes one space. */
  function CollapseWhitespace(s: string): string
    decreases |s|
  {
    if s == [] then []
    else if IsSpace(s[0]) then [' '] + CollapseWhitespace(LStrip(s))
    else [s[0]] + CollapseWhitespace(s[1..])
  }

  /** Some character of `s` satisfies `IsLowerAscii`: `re.search(r"[a-z]", s)`. */
  predicate HasAsciiLower(s: string) {
    exists i :: 0 <= i < |s| && 'a' <= s[i] <= 'z'
  }

  // ---------------------------------------------------------------------
  // Facts about the operations
  // ---------------------------------------------------------------------

  /** `sub` occurs in `s` at offset `i`. */
  predicate OccursAt(s: string, sub: string, i: int) {
    0 <= i <= |s| - |sub| && s[i..i + |sub|] == sub
  }

  /** `sub in s` holds exactly when `sub` occurs at some offset of `s`. */
  lemma {:induction false} ContainsAt(s: string, sub: string)
    ensures Contains(s, sub) <==> exists i :: OccursAt(s, sub, i)
  {
    if s == [] {
      if exists i :: OccursAt(s, sub, i) {
        var i :| OccursAt(s, sub, i);
        assert sub == [] && s[..0] == [];
        assert StartsWith(s, sub);
      }
      if Contains(s, sub) {
        assert sub == [] && s[0..0] == [];
        assert OccursAt(s, sub, 0);
      }
    } else {
      ContainsAt(s[1..], sub);
      if StartsWith(s, sub) {
        assert s[0..|sub|] == s[..|sub|];
        assert OccursAt(s, sub, 0);
      }
      if Contains(s[1..], sub) {
        var i :| OccursAt(s[1..], sub, i);
        assert s[i + 1..i + 1 + |sub|] == s[1..][i..i + |sub|];
        assert OccursAt(s, sub, i + 1);
      }
      if exists i :: OccursAt(s, sub, i) {
        var i :| OccursAt(s, sub, i);
        if i > 0 {
          assert s[1..][i - 1..i - 1 + |sub|] == s[i..i + |sub|];
          assert OccursAt(s[1..], sub, i - 1);
        } else {
          assert s[0..|sub|] == s[..|sub|];
          assert StartsWith(s, sub);
        }
      }
    }
  }

  /** A string that never contains the first character of `sub` does not contain `sub`. */
  lemma {:induction false} NotContainsWithoutFirstChar(s: string, sub: string)
    requires sub != [] && sub[0] !in s
    ensures !Contains(s, sub)
  {
    if s != [] {
      assert s[0] in s;
      assert s[1..] <= s[1..];
      forall c | c in s[1..] ensures c in s { }
      NotContainsWithoutFirstChar(s[1..], sub);
    }
  }

  /** An upper-case character never occurs in a lower-cased string. */
  lemma LowerHasNoUpper(s: string, c: char)
    requires IsUpperChar(c)
    ensures c !in Lower(s)
  {
    forall i | 0 <= i < |s| ensures Lower(s)[i] != c { }
  }

  /** Lower-casing and stripping commute: lower-casing keeps whitespace. */
  lemma {:induction false} LStripLower(s: string)
    ensures LStrip(Lower(s)) == Lower(LStrip(s))
    decreases |s|
  {
    if s != [] && IsSpace(s[0]) {
      assert Lower(s)[1..] == Lower(s[1..]);
      LStripLower(s[1..]);
    }
  }

  lemma {:induction false} RStripLower(s: string)
    ensures RStrip(Lower(s)) == Lower(RStrip(s))
    decreases |s|
  {
    if s != [] && IsSpace(s[|s| - 1]) {
      assert Lower(s)[..|s| - 1] == Lower(s[..|s| - 1]);
      RStripLower(s[..|s| - 1]);
    }
  }

  lemma StripLower(s: string)
    ensures Strip(Lower(s)) == Lower(Strip(s))
  {
    LStripLower(s);
    RStripLower(LStrip(s));
  }
}
