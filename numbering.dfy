/** The numbering-pattern table of the title classifier and its dispatch:
    seven anchored patterns tried in a fixed order on the stripped heading
    text, the first match deciding the pattern, its number and the text after
    the number. */
module Numbering {
  import opened PyStr

  /** The keys of the pattern table, in the order they are tried, plus `none`. */
  datatype Pattern =
    | MainChapter     // "1. Introduction"
    | Subsection      // "2.1 Intended Audience"
    | Subsubsection   // "2.1.1 Something"
    | SimpleNumber    // "1) ..." or "1.x"
    | RomanNumeral    // "IV. ..."
    | LetterNumbering // "B. ..."
    | BulletPoint     // "• ..."
    | NoPattern

  /** `(pattern_type, number, remaining_text)` */
  datatype Detection = Detection(pattern: Pattern, number: nat, rest: string)

  // ---------------------------------------------------------------------
  // Pieces of the regular expressions
  // ---------------------------------------------------------------------

  /** Length of the maximal run of ASCII digits that starts `s` (greedy `\d+`). */
  function DigitRun(s: string): (n: nat)
    ensures n <= |s|
    ensures forall i :: 0 <= i < n ==> IsDigit(s[i])
    ensures n == |s| || !IsDigit(s[n])
  {
    if s != [] && IsDigit(s[0]) then 1 + DigitRun(s[1..]) else 0
  }

  /** `[IVXLCDM]` under `re.IGNORECASE`. */
  predicate IsRomanLetter(c: char) {
    c in "IVXLCDMivxlcdm"
  }

  /** Length of the maximal run of roman-numeral letters that starts `s`. */
  function RomanRun(s: string): (n: nat)
    ensures n <= |s|
    ensures forall i :: 0 <= i < n ==> IsRomanLetter(s[i])
    ensures n == |s| || !IsRomanLetter(s[n])
  {
    if s != [] && IsRomanLetter(s[0]) then 1 + RomanRun(s[1..]) else 0
  }

  /** The bullet class `[•‣◦⁃∙\-\*]`. */
  predicate IsBulletChar(c: char) {
    c == '\U{2022}' || c == '\U{2023}' || c == '\U{25E6}' || c == '\U{2043}'
    || c == '\U{2219}' || c == '-' || c == '*'
  }

  /** The captured `(.+)` after a whitespace gap, stripped: on stripped text
      the greedy gap takes the whole run of whitespace and `.+` the rest of
      that line. */
  function Tail(s: string): string {
    Strip(TakeLine(LStrip(s)))
  }

  // ---------------------------------------------------------------------
  // The seven patterns, on stripped text `t`
  // ---------------------------------------------------------------------

  /** `^\s*(\d+)\.\s+(.+)` */
  predicate IsMainChapter(t: string) {
    var d := DigitRun(t);
    0 < d && d + 1 < |t| && t[d] == '.' && IsSpace(t[d + 1])
  }

  /** Position just after `\d+\.\d+` at the start of `t`, when `t` starts so. */
  function AfterTwoNumbers(t: string): (p: nat)
    requires 0 < DigitRun(t) < |t| && t[DigitRun(t)] == '.'
    ensures p <= |t|
  {
    var d1 := DigitRun(t);
    d1 + 1 + DigitRun(t[d1 + 1..])
  }

  /** `^\s*(\d+)\.(\d+)\s+(.+)` */
  predicate IsSubsection(t: string) {
    var d1 := DigitRun(t);
    0 < d1 < |t| && t[d1] == '.'
    && 0 < DigitRun(t[d1 + 1..])
    && AfterTwoNumbers(t) < |t| && IsSpace(t[AfterTwoNumbers(t)])
  }

  /** `^\s*(\d+)\.(\d+)\.(\d+)\s+(.+)` */
  predicate IsSubsubsection(t: string) {
    var d1 := DigitRun(t);
    0 < d1 < |t| && t[d1] == '.'
    && 0 < DigitRun(t[d1 + 1..])
    && var p := AfterTwoNumbers(t);
    p < |t| && t[p] == '.'
    && 0 < DigitRun(t[p + 1..])
    && var q := p + 1 + DigitRun(t[p + 1..]);
    q < |t| && IsSpace(t[q])
  }

  /** `^\s*(\d+)[\)\.]\s*(.+)` */
  predicate IsSimpleNumber(t: string) {
    var d := DigitRun(t);
    0 < d && d + 1 < |t| && (t[d] == ')' || t[d] == '.')
  }

  /** `^\s*([IVXLCDM]+)\.\s+(.+)`, ignoring case */
  predicate IsRomanNumeral(t: string) {
    var r := RomanRun(t);
    0 < r && r + 1 < |t| && t[r] == '.' && IsSpace(t[r + 1])
  }

  /** `^\s*([A-Z])\.\s+(.+)`, ignoring case */
  predicate IsLetterNumbering(t: string) {
    2 < |t| && IsAsciiLetter(t[0]) && t[1] == '.' && IsSpace(t[2])
  }

  /** `^\s*[bullet]\s+(.+)` */
  predicate IsBulletPoint(t: string) {
    1 < |t| && IsBulletChar(t[0]) && IsSpace(t[1])
  }

  /** `int(match.group(1))`: the value of the leading digits. */
  function LeadingNumber(t: string): nat {
    DigitsValue(t[..DigitRun(t)])
  }

  /** `_detect_numbering_pattern`: the first pattern that matches the stripped
      text, with its number and the stripped remainder. */
  function DetectNumbering(text: string): (r: Detection)
    ensures r.pattern in {RomanNumeral, LetterNumbering} ==> r.number == 1
    ensures r.pattern in {BulletPoint, NoPattern} ==> r.number == 0
    ensures r.pattern == NoPattern ==> r.rest == Strip(text)
  {
    var t := Strip(text);
    if IsMainChapter(t) then
      Detection(MainChapter, LeadingNumber(t), Tail(t[DigitRun(t) + 1..]))
    else if IsSubsection(t) then
      Detection(Subsection, LeadingNumber(t), Tail(t[AfterTwoNumbers(t)..]))
    else if IsSubsubsection(t) then
      var p := AfterTwoNumbers(t);
      var q := p + 1 + DigitRun(t[p + 1..]);
      Detection(Subsubsection, LeadingNumber(t), Tail(t[q..]))
    else if IsSimpleNumber(t) then
      Detection(SimpleNumber, LeadingNumber(t), Tail(t[DigitRun(t) + 1..]))
    else if IsRomanNumeral(t) then
      Detection(RomanNumeral, 1, Tail(t[RomanRun(t) + 1..]))
    else if IsLetterNumbering(t) then
      Detection(LetterNumbering, 1, Tail(t[2..]))
    else if IsBulletPoint(t) then
      Detection(BulletPoint, 0, Tail(t[1..]))
    else
      Detection(NoPattern, 0, t)
  }

  // ---------------------------------------------------------------------
  // The priority order
  // ---------------------------------------------------------------------

  /** Stripping a string that starts and ends with a non-space changes nothing. */
  lemma StripKeeps(s: string)
    requires s != [] && !IsSpace(s[0]) && !IsSpace(s[|s| - 1])
    ensures Strip(s) == s
  {
  }

  lemma {:induction false} DigitRunOfDigits(d: string, rest: string)
    requires forall i :: 0 <= i < |d| ==> IsDigit(d[i])
    requires rest == [] || !IsDigit(rest[0])
    ensures DigitRun(d + rest) == |d|
    decreases |d|
  {
    if d != [] {
      assert (d + rest)[1..] == d[1..] + rest;
      DigitRunOfDigits(d[1..], rest);
    }
  }

  /** A digit run never reaches the '.' or the space that ends a main-chapter
      number, so "N. X" can only be `main_chapter`. */
  lemma NumberDotSpaceIsMainChapter(d: string, w: char, x: string)
    requires IsDigits(d) && IsSpace(w)
    requires x != [] && !IsSpace(x[0]) && !IsSpace(x[|x| - 1])
    ensures DetectNumbering(d + "." + [w] + x).pattern == MainChapter
    ensures DetectNumbering(d + "." + [w] + x).number == DigitsValue(d)
  {
    var t := d + "." + [w] + x;
    var tail := "." + [w] + x;
    assert t == d + tail;
    StripKeeps(t);
    DigitRunOfDigits(d, tail);
    assert t[|d|] == '.' && t[|d| + 1] == w;
    assert IsMainChapter(t);
    assert t[..|d|] == d;
  }

  /** A `simple_number` never has the main-chapter shape: the character after
      its delimiter is not whitespace when the delimiter is a '.'. */
  lemma SimpleNumberIsNotMainChapter(text: string)
    requires DetectNumbering(text).pattern == SimpleNumber
    ensures var t := Strip(text);
            var d := DigitRun(t);
            0 < d && d + 1 < |t| && (t[d] == ')' || !IsSpace(t[d + 1]))
  {
    DetectedPattern(text);
  }

  /** The pattern detected is the first of the seven shapes `Strip(text)` has. */
  lemma DetectedPattern(text: string)
    ensures var t := Strip(text);
            DetectNumbering(text).pattern ==
              if IsMainChapter(t) then MainChapter
              else if IsSubsection(t) then Subsection
              else if IsSubsubsection(t) then Subsubsection
              else if IsSimpleNumber(t) then SimpleNumber
              else if IsRomanNumeral(t) then RomanNumeral
              else if IsLetterNumbering(t) then LetterNumbering
              else if IsBulletPoint(t) then BulletPoint
              else NoPattern
  {
  }

  /** `t` starts with the digits `a` followed by `rest`, which does not start with a digit. */
  lemma LeadingDigits(t: string, a: string, rest: string)
    requires IsDigits(a) && t == a + rest && (rest == [] || !IsDigit(rest[0]))
    ensures DigitRun(t) == |a| && LeadingNumber(t) == DigitsValue(a)
  {
    DigitRunOfDigits(a, rest);
    assert t[..|a|] == a;
  }

  lemma DetectSubsection(t: string)
    requires t != [] && !IsSpace(t[0]) && !IsSpace(t[|t| - 1])
    requires !IsMainChapter(t) && IsSubsection(t)
    ensures DetectNumbering(t) == Detection(Subsection, LeadingNumber(t), Tail(t[AfterTwoNumbers(t)..]))
  {
    StripKeeps(t);
  }

  lemma DetectSubsubsection(t: string)
    requires t != [] && !IsSpace(t[0]) && !IsSpace(t[|t| - 1])
    requires !IsMainChapter(t) && !IsSubsection(t) && IsSubsubsection(t)
    ensures DetectNumbering(t).pattern == Subsubsection
    ensures DetectNumbering(t).number == LeadingNumber(t)
  {
    StripKeeps(t);
  }

  /** `t` starts with two dot-separated digit groups `t[..i]` and `t[i + 1..j]`. */
  lemma TwoNumbersPrefix(t: string, i: nat, j: nat)
    requires 0 < i && i + 1 < j < |t|
    requires IsDigits(t[..i]) && t[i] == '.' && IsDigits(t[i + 1..j]) && !IsDigit(t[j])
    ensures DigitRun(t) == i && AfterTwoNumbers(t) == j && !IsMainChapter(t)
  {
    PrefixDigitRun(t, i);
    var u := t[i + 1..];
    assert u[..j - i - 1] == t[i + 1..j];
    PrefixDigitRun(u, j - i - 1);
    assert !IsSpace(t[i + 1]) by { assert t[i + 1] == t[i + 1..j][0]; }
  }

  /** The digit run of `s` is the digit prefix `s[..n]`. */
  lemma PrefixDigitRun(s: string, n: nat)
    requires n < |s| && IsDigits(s[..n]) && !IsDigit(s[n])
    ensures DigitRun(s) == n
  {
    assert s == s[..n] + s[n..];
    DigitRunOfDigits(s[..n], s[n..]);
  }

  /** "a.b X" is a `subsection` numbered `a`: here `a` is `t[..i]` and `b` is
      `t[i + 1..j]`. */
  lemma TwoLevelNumberIsSubsection(t: string, i: nat, j: nat)
    requires 0 < i && i + 1 < j < |t| - 1 && !IsSpace(t[|t| - 1])
    requires IsDigits(t[..i]) && t[i] == '.' && IsDigits(t[i + 1..j]) && IsSpace(t[j])
    ensures DetectNumbering(t).pattern == Subsection
    ensures DetectNumbering(t).number == DigitsValue(t[..i])
  {
    assert IsDigit(t[0]) by { assert t[0] == t[..i][0]; }
    StripKeeps(t);
    LeadingDigits(t, t[..i], t[i..]);
    TwoNumbersPrefix(t, i, j);
    DetectSubsection(t);
  }

  /** The three number groups of "a.b.c X" make it a `subsubsection` shape
      and neither of the shapes tried before. */
  lemma ThreeLevelShape(t: string, i: nat, j: nat, k: nat)
    requires 0 < i && i + 1 < j && j + 1 < k < |t| - 1
    requires IsDigits(t[..i]) && t[i] == '.' && IsDigits(t[i + 1..j]) && t[j] == '.'
    requires IsDigits(t[j + 1..k]) && IsSpace(t[k])
    ensures !IsMainChapter(t) && !IsSubsection(t) && IsSubsubsection(t)
  {
    TwoNumbersPrefix(t, i, j);
    assert t[j + 1..] == t[j + 1..k] + t[k..];
    DigitRunOfDigits(t[j + 1..k], t[k..]);
  }

  /** "a.b.c X" is a `subsubsection` numbered `a`: here `a` is `t[..i]`, `b`
      is `t[i + 1..j]` and `c` is `t[j + 1..k]`. */
  lemma ThreeLevelNumberIsSubsubsection(t: string, i: nat, j: nat, k: nat)
    requires 0 < i && i + 1 < j && j + 1 < k < |t| - 1 && !IsSpace(t[|t| - 1])
    requires IsDigits(t[..i]) && t[i] == '.' && IsDigits(t[i + 1..j]) && t[j] == '.'
    requires IsDigits(t[j + 1..k]) && IsSpace(t[k])
    ensures DetectNumbering(t).pattern == Subsubsection
    ensures DetectNumbering(t).number == DigitsValue(t[..i])
  {
    assert IsDigit(t[0]) by { assert t[0] == t[..i][0]; }
    StripKeeps(t);
    LeadingDigits(t, t[..i], t[i..]);
    ThreeLevelShape(t, i, j, k);
    DetectSubsubsection(t);
  }

  /** A single roman-numeral letter before ". " is `roman_numeral`, never
      `letter_numbering`, and is numbered 1. */
  lemma RomanLetterIsRomanNumeral(c: char, w: char, x: string)
    requires IsRomanLetter(c) && IsSpace(w)
    requires x != [] && !IsSpace(x[0]) && !IsSpace(x[|x| - 1])
    ensures DetectNumbering([c] + "." + [w] + x) == Detection(RomanNumeral, 1, Tail([w] + x))
  {
    var t := [c] + "." + [w] + x;
    assert t[0] == c && t[1] == '.' && t[2] == w && t[|t| - 1] == x[|x| - 1];
    assert t[2..] == [w] + x;
    DetectRoman(t);
  }

  /** A stripped text starting with a roman-numeral letter and ". " is
      detected as `roman_numeral`, numbered 1. */
  lemma DetectRoman(t: string)
    requires 2 < |t| && IsRomanLetter(t[0]) && t[1] == '.' && IsSpace(t[2])
    requires !IsSpace(t[|t| - 1])
    ensures DetectNumbering(t) == Detection(RomanNumeral, 1, Tail(t[2..]))
  {
    assert !IsSpace(t[0]) && !IsDigit(t[0]);
    StripKeeps(t);
    assert DigitRun(t) == 0;
    RomanShapeFromLetter(t);
  }

  /** A roman-numeral letter followed by ". " is a roman numeral. */
  lemma RomanShapeFromLetter(t: string)
    requires 2 < |t| && IsRomanLetter(t[0]) && t[1] == '.' && IsSpace(t[2])
    ensures IsRomanNumeral(t) && RomanRun(t) == 1
  {
    assert RomanRun(t[1..]) == 0;
  }

  /** Whatever is detected as `letter_numbering` does not start with a
      roman-numeral letter. */
  lemma LetterNumberingIsNotRoman(text: string)
    requires DetectNumbering(text).pattern == LetterNumbering
    ensures !IsRomanLetter(Strip(text)[0])
  {
    var t := Strip(text);
    if IsRomanLetter(t[0]) {
      RomanShapeFromLetter(t);
    }
  }
}
