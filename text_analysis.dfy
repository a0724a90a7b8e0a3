/** The text analysis agent: the document language, detected once from the
    long lines of the first page, and per line the `is_numbered`,
    `is_uppercase`, `is_short` and `language` annotations. */
module TextAnalysis {
  import opened Wrappers
  import opened PyStr
  import opened Records

  // ---------------------------------------------------------------------
  // The document language
  // ---------------------------------------------------------------------

  /** The texts of the first-page lines longer than 20 characters, in order. */
  function SampleTexts(data: seq<Line>): (r: seq<string>)
    ensures forall k :: 0 <= k < |r| ==> |r[k]| > 20
    ensures r == [] <==> forall i :: 0 <= i < |data| ==> data[i].page != 1 || |data[i].text| <= 20
  {
    if data == [] then []
    else
      (if data[0].page == 1 && |data[0].text| > 20 then [data[0].text] else [])
      + SampleTexts(data[1..])
  }

  /** `" ".join(...)` of the sample texts. */
  function SampleText(data: seq<Line>): string {
    Join(" ", SampleTexts(data))
  }

  /** `detect_language(sample) if sample else "unknown"`, with the detector
      a parameter. */
  function LanguageOf(data: seq<Line>, detect: string -> string): string {
    var sample := SampleText(data);
    if sample == [] then "unknown" else detect(sample)
  }

  /** A join starts with its first part. */
  lemma JoinStartsWithFirst(sep: string, parts: seq<string>)
    requires parts != []
    ensures StartsWith(Join(sep, parts), parts[0])
  {
    if |parts| > 1 {
      assert Join(sep, parts) == parts[0] + (sep + Join(sep, parts[1..]));
    }
  }

  /** The sample is empty exactly when the first page has no line longer
      than 20 characters; otherwise it starts with the first such line. */
  lemma SampleSpec(data: seq<Line>)
    ensures SampleText(data) == [] <==>
              forall i :: 0 <= i < |data| ==> data[i].page != 1 || |data[i].text| <= 20
    ensures SampleTexts(data) != [] ==> StartsWith(SampleText(data), SampleTexts(data)[0])
  {
    if SampleTexts(data) != [] {
      JoinStartsWithFirst(" ", SampleTexts(data));
    }
  }

  /** The language is "unknown" without a long first-page line, and the
      detector's verdict on the sample otherwise. */
  lemma LanguageSpec(data: seq<Line>, detect: string -> string)
    ensures (forall i :: 0 <= i < |data| ==> data[i].page != 1 || |data[i].text| <= 20) ==>
              LanguageOf(data, detect) == "unknown"
    ensures (exists i :: 0 <= i < |data| && data[i].page == 1 && |data[i].text| > 20) ==>
              LanguageOf(data, detect) == detect(SampleText(data)) && SampleText(data) != []
  {
    SampleSpec(data);
  }

  // ---------------------------------------------------------------------
  // is_numbered: the pattern `^\d+(\.\d+)*\s`
  // ---------------------------------------------------------------------

  /** A run of digits, optionally followed by dot-separated digit runs:
      what `\d+(\.\d+)*` matches. */
  predicate NumberForm(t: string) {
    |t| > 0 && IsDigit(t[0]) && IsDigit(t[|t| - 1])
    && (forall i :: 0 <= i < |t| ==> IsDigit(t[i]) || t[i] == '.')
    && (forall i :: 0 <= i < |t| - 1 && t[i] == '.' ==> IsDigit(t[i + 1]))
  }

  /** The pattern matches at the start of `s`: a number form followed by a
      whitespace character. */
  ghost predicate NumberedPrefix(s: string) {
    exists k :: 0 < k < |s| && NumberForm(s[..k]) && IsSpace(s[k])
  }

  /** The matcher's scan from position `i`, just after a digit: more digits,
      a dot that must be followed by a digit, or the closing whitespace. */
  predicate ScanNumber(s: string, i: nat)
    requires i <= |s|
    decreases |s| - i
  {
    if i == |s| then false
    else if IsDigit(s[i]) then ScanNumber(s, i + 1)
    else if s[i] == '.' then i + 1 < |s| && IsDigit(s[i + 1]) && ScanNumber(s, i + 2)
    else IsSpace(s[i])
  }

  /** `bool(num_pattern.match(text))` */
  predicate Numbered(s: string) {
    |s| > 0 && IsDigit(s[0]) && ScanNumber(s, 1)
  }

  lemma {:induction false} ScanNumberSpec(s: string, i: nat)
    requires 0 < i <= |s| && NumberForm(s[..i])
    ensures ScanNumber(s, i) <==> exists k :: i <= k < |s| && NumberForm(s[..k]) && IsSpace(s[k])
    decreases |s| - i
  {
    if i == |s| {
    } else if IsDigit(s[i]) {
      assert NumberForm(s[..i + 1]) by {
        assert s[..i + 1] == s[..i] + [s[i]];
      }
      ScanNumberSpec(s, i + 1);
      assert !IsSpace(s[i]);
    } else if s[i] == '.' {
      if i + 1 < |s| && IsDigit(s[i + 1]) {
        assert NumberForm(s[..i + 2]) by {
          assert s[..i + 2] == s[..i] + [s[i], s[i + 1]];
        }
        ScanNumberSpec(s, i + 2);
        assert !IsSpace(s[i]) && !IsSpace(s[i + 1]);
      } else {
        forall k | i <= k < |s| && IsSpace(s[k]) ensures !NumberForm(s[..k]) {
          if k > i {
            assert s[..k][i] == '.';
            if i + 1 < k {
              assert s[..k][i + 1] == s[i + 1];
            }
          }
        }
      }
    } else {
      if !IsSpace(s[i]) {
        forall k | i <= k < |s| && IsSpace(s[k]) ensures !NumberForm(s[..k]) {
          assert k > i;
          assert s[..k][i] == s[i];
        }
      }
    }
  }

  /** `is_numbered` holds exactly when the text starts with digits, any
      number of `.digits` groups and then a whitespace character. */
  lemma NumberedSpec(s: string)
    ensures Numbered(s) <==> NumberedPrefix(s)
  {
    if |s| > 0 && IsDigit(s[0]) {
      assert NumberForm(s[..1]);
      ScanNumberSpec(s, 1);
    } else {
      forall k | 0 < k < |s| ensures !NumberForm(s[..k]) {
        assert s[..k][0] == s[0];
      }
    }
  }

  // ---------------------------------------------------------------------
  // is_uppercase and is_short
  // ---------------------------------------------------------------------

  /** `[w for w in words if len(w) > 3]` */
  function LongWords(words: seq<string>): (r: seq<string>)
    ensures forall w :: w in r <==> w in words && |w| > 3
  {
    if words == [] then []
    else (if |words[0]| > 3 then [words[0]] else []) + LongWords(words[1..])
  }

  /** `any(w.isupper() for w in words) if words else text.isupper()` */
  predicate UppercaseFlag(text: string) {
    var words := LongWords(Split(text));
    if words != [] then exists k :: 0 <= k < |words| && IsUpper(words[k]) else IsUpper(text)
  }

  /** `len(text.split()) < 5` */
  predicate ShortFlag(text: string) {
    |Split(text)| < 5
  }

  /** `is_uppercase` holds when some word longer than three characters is
      upper-case, or, when there is no such word, when the whole text is. */
  lemma UppercaseSpec(text: string)
    ensures UppercaseFlag(text) <==>
              (exists w :: w in Split(text) && |w| > 3 && IsUpper(w))
              || ((forall w :: w in Split(text) ==> |w| <= 3) && IsUpper(text))
  {
    var words := LongWords(Split(text));
    if words != [] {
      var w0 := words[0];
      assert w0 in Split(text) && |w0| > 3;
      if exists w :: w in Split(text) && |w| > 3 && IsUpper(w) {
        var w :| w in Split(text) && |w| > 3 && IsUpper(w);
        assert w in words;
      }
    } else {
      assert forall w :: w in Split(text) ==> |w| <= 3;
    }
  }

  /** The characters of a slice are characters of the whole. */
  lemma SliceChars(s: string, i: nat, j: nat)
    requires i <= j <= |s|
    ensures forall c :: c in s[i..j] ==> c in s
  {
    forall c | c in s[i..j] ensures c in s {
      var m :| 0 <= m < j - i && s[i..j][m] == c;
      assert s[i + m] == c;
    }
  }

  /** Every character of a word of `s.split()` is a character of `s`. */
  lemma {:induction false} SplitWordsFromText(s: string)
    ensures forall w, c :: w in Split(s) && c in w ==> c in s
    decreases |s|
  {
    var t := LStrip(s);
    if t != [] {
      var w := TakeWord(t);
      var rest := t[|w|..];
      SplitWordsFromText(rest);
      assert Split(s) == [w] + Split(rest);
      SliceChars(s, |s| - |t|, |s|);
      SliceChars(t, 0, |w|);
      SliceChars(t, |w|, |t|);
    }
  }

  /** A text without an upper-case letter is never flagged upper-case. */
  lemma NoCapitalsNotUppercase(text: string)
    requires forall c :: c in text ==> !IsUpperChar(c)
    ensures !UppercaseFlag(text)
  {
    var words := LongWords(Split(text));
    SplitWordsFromText(text);
    forall k | 0 <= k < |words| ensures !IsUpper(words[k]) {
      var w := words[k];
      assert w in words;
      assert w in Split(text);
      assert forall i :: 0 <= i < |w| ==> w[i] in w;
    }
    assert !IsUpper(text) by {
      assert forall i :: 0 <= i < |text| ==> text[i] in text;
    }
  }

  /** Words need one character each and a separator between two of them. */
  lemma {:induction false} SplitCountBound(s: string)
    ensures 2 * |Split(s)| <= |LStrip(s)| + 1
    decreases |s|
  {
    var t := LStrip(s);
    if t != [] {
      var w := TakeWord(t);
      var rest := t[|w|..];
      SplitCountBound(rest);
      assert Split(s) == [w] + Split(rest);
      if rest != [] {
        assert IsSpace(rest[0]);
        assert LStrip(rest) == LStrip(rest[1..]);
      }
    }
  }

  /** A text of fewer than nine characters cannot hold five words, so it is
      short. */
  lemma ShortTextIsShort(text: string)
    requires |text| < 9
    ensures ShortFlag(text)
  {
    SplitCountBound(text);
  }

  // ---------------------------------------------------------------------
  // The annotation
  // ---------------------------------------------------------------------

  /** One line with the four text annotations set. */
  function AnnotateText(item: Line, language: string): Line {
    item.(isNumbered := Some(Numbered(item.text)),
          isUppercase := Some(UppercaseFlag(item.text)),
          isShort := Some(ShortFlag(item.text)),
          language := Some(language))
  }

  /** Every line annotated, in order. */
  function AnalyzedText(data: seq<Line>, language: string): (r: seq<Line>)
    ensures |r| == |data|
  {
    seq(|data|, i requires 0 <= i < |data| => AnnotateText(data[i], language))
  }

  predicate SameExceptText(a: Line, b: Line) {
    a == b.(isNumbered := a.isNumbered, isUppercase := a.isUppercase,
            isShort := a.isShort, language := a.language)
  }

  /** The lines keep their number and order; each gets the document
      language and its three flags, and nothing else of it changes. */
  lemma AnalyzedTextSpec(data: seq<Line>, language: string)
    ensures |AnalyzedText(data, language)| == |data|
    ensures forall j :: 0 <= j < |data| ==>
              var r := AnalyzedText(data, language)[j];
              SameExceptText(r, data[j])
              && r.language == Some(language)
              && r.isNumbered.Some? && (r.isNumbered.value <==> NumberedPrefix(data[j].text))
              && r.isShort == Some(|Split(data[j].text)| < 5)
              && r.isUppercase == Some(UppercaseFlag(data[j].text))
  {
    forall j | 0 <= j < |data|
      ensures NumberedPrefix(data[j].text) <==> Numbered(data[j].text)
    {
      NumberedSpec(data[j].text);
    }
  }

  /** Every line receives the same language. */
  lemma SameLanguage(data: seq<Line>, language: string, i: nat, j: nat)
    requires i < |data| && j < |data|
    ensures AnalyzedText(data, language)[i].language == AnalyzedText(data, language)[j].language
  {
  }

  /** Annotating twice gives the same lines as annotating once. */
  lemma AnalyzeTextIdempotent(data: seq<Line>, language: string)
    ensures AnalyzedText(AnalyzedText(data, language), language) == AnalyzedText(data, language)
  {
  }

  // ---------------------------------------------------------------------
  // The agent
  // ---------------------------------------------------------------------

  class TextAnalysisAgent {
    var data: seq<Line>
    var language: string

    /** `__init__(structure_data)`: keeps the lines and detects the language
        of the sample, with `detect` standing for `detect_language`. */
    constructor(structureData: seq<Line>, detect: string -> string)
      ensures data == structureData
      ensures language == LanguageOf(structureData, detect)
    {
      data := structureData;
      var sample := SampleText(structureData);
      language := if sample == [] then "unknown" else detect(sample);
    }

    /** `analyze_text()`: annotates every line in place and returns them. */
    method AnalyzeText() returns (r: seq<Line>)
      modifies this
      ensures language == old(language)
      ensures data == AnalyzedText(old(data), language)
      ensures r == data
    {
      data := AnnotateAll(data, language);
      r := data;
    }
  }

  /** The loop of `analyze_text()`: each line in turn gets its flags and
      the document language. */
  method AnnotateAll(data: seq<Line>, lang: string) returns (items: seq<Line>)
    ensures items == AnalyzedText(data, lang)
  {
    items := data;
    var k := 0;
    while k < |items|
      invariant |items| == |data| && 0 <= k <= |items|
      invariant forall j :: 0 <= j < k ==> items[j] == AnnotateText(data[j], lang)
      invariant forall j :: k <= j < |items| ==> items[j] == data[j]
    {
      var item := items[k];
      var text := item.text;
      var isNumbered := Numbered(text);
      var isUppercase := UppercaseFlag(text);
      var isShort := ShortFlag(text);
      var next := item.(isNumbered := Some(isNumbered), isUppercase := Some(isUppercase),
                        isShort := Some(isShort), language := Some(lang));
      assert next == AnnotateText(data[k], lang);
      items := items[k := next];
      k := k + 1;
    }
    assert items == AnalyzedText(data, lang);
  }
}
