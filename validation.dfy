/** `ValidationAgent.validate`: the final title and outline. The title joins
    the page-1 lines of nearly the largest font ratio; each page with an OCR
    line ("poster" page) contributes its longest OCR line as one H1 entry;
    every other page contributes its headings in vertical order, less the
    ones repeated more than three times, too short, only a number or a
    copyright notice. Any exception yields the empty result. The agent object
    only holds its inputs, so its operations are functions of them. */
module Validation {
  import opened Wrappers
  import opened PyStr
  import opened Records
  import opened Sorting

  // ---------------------------------------------------------------------
  // clean_spacing
  // ---------------------------------------------------------------------

  /** `re.sub(r'(\b\w)\s(\w\b)', r'\1\2', s)`, scanning from the left:
      a one-character word, one whitespace character and another
      one-character word lose the whitespace. `afterWord` says whether the
      character before `s` in the whole text is a word character. */
  function JoinSingles(s: string, afterWord: bool): string
    decreases |s|
  {
    if s == [] then []
    else if !afterWord && |s| >= 3 && IsWordChar(s[0]) && IsSpace(s[1]) && IsWordChar(s[2])
            && (|s| == 3 || !IsWordChar(s[3])) then
      [s[0], s[2]] + JoinSingles(s[3..], true)
    else [s[0]] + JoinSingles(s[1..], IsWordChar(s[0]))
  }

  /** `re.sub(r'\s{2,}', ' ', s)`: a run of two or more whitespace
      characters becomes one space; a single one is kept as it is. */
  function CollapseRuns(s: string): string
    decreases |s|
  {
    if s == [] then []
    else if |s| >= 2 && IsSpace(s[0]) && IsSpace(s[1]) then [' '] + CollapseRuns(LStrip(s))
    else [s[0]] + CollapseRuns(s[1..])
  }

  /** `clean_spacing(txt)` */
  function CleanSpacing(s: string): string {
    Strip(CollapseRuns(JoinSingles(s, false)))
  }

  /** No two whitespace characters are adjacent. */
  predicate NoDoubleSpace(s: string) {
    forall i :: 0 <= i < |s| - 1 ==> !(IsSpace(s[i]) && IsSpace(s[i + 1]))
  }

  /** The characters of `s` that are not whitespace, in order. */
  function NonSpace(s: string): string {
    if s == [] then [] else (if IsSpace(s[0]) then [] else [s[0]]) + NonSpace(s[1..])
  }

  lemma {:induction false} NonSpaceConcat(a: string, b: string)
    ensures NonSpace(a + b) == NonSpace(a) + NonSpace(b)
  {
    if a == [] {
      assert a + b == b;
    } else {
      assert (a + b)[1..] == a[1..] + b;
      NonSpaceConcat(a[1..], b);
    }
  }

  /** A whitespace character between two others does not count. */
  lemma DropMiddleSpace(a: char, b: char, c: char)
    requires IsSpace(b)
    ensures NonSpace([a, b, c]) == NonSpace([a, c])
  {
    assert [a, b, c][1..] == [b, c] && [b, c][1..] == [c] && [a, c][1..] == [c];
  }

  lemma {:induction false} LStripNonSpace(s: string)
    ensures NonSpace(LStrip(s)) == NonSpace(s)
  {
    if s != [] && IsSpace(s[0]) {
      LStripNonSpace(s[1..]);
    }
  }

  lemma {:induction false} RStripNonSpace(s: string)
    ensures NonSpace(RStrip(s)) == NonSpace(s)
  {
    if s != [] && IsSpace(s[|s| - 1]) {
      var n := |s| - 1;
      RStripNonSpace(s[..n]);
      assert s == s[..n] + [s[n]];
      NonSpaceConcat(s[..n], [s[n]]);
    }
  }

  /** A run of whitespace lies between two words: dropping it, or making it
      one space, keeps the other characters. */
  lemma {:induction false} CollapseRunsSpec(s: string)
    ensures NonSpace(CollapseRuns(s)) == NonSpace(s)
    ensures NoDoubleSpace(CollapseRuns(s))
    ensures s != [] ==> CollapseRuns(s) != [] && (IsSpace(CollapseRuns(s)[0]) <==> IsSpace(s[0]))
    decreases |s|
  {
    if s == [] {
    } else if |s| >= 2 && IsSpace(s[0]) && IsSpace(s[1]) {
      var t := LStrip(s);
      CollapseRunsSpec(t);
      LStripNonSpace(s);
      NonSpaceConcat([' '], CollapseRuns(t));
    } else {
      CollapseRunsSpec(s[1..]);
      NonSpaceConcat([s[0]], CollapseRuns(s[1..]));
      assert s == [s[0]] + s[1..];
      NonSpaceConcat([s[0]], s[1..]);
    }
  }

  lemma {:induction false} JoinSinglesNonSpace(s: string, afterWord: bool)
    ensures NonSpace(JoinSingles(s, afterWord)) == NonSpace(s)
    decreases |s|
  {
    if s == [] {
    } else if !afterWord && |s| >= 3 && IsWordChar(s[0]) && IsSpace(s[1]) && IsWordChar(s[2])
              && (|s| == 3 || !IsWordChar(s[3])) {
      var rest := JoinSingles(s[3..], true);
      assert JoinSingles(s, afterWord) == [s[0], s[2]] + rest;
      JoinSinglesNonSpace(s[3..], true);
      NonSpaceConcat([s[0], s[2]], rest);
      assert s == [s[0], s[1], s[2]] + s[3..];
      NonSpaceConcat([s[0], s[1], s[2]], s[3..]);
      DropMiddleSpace(s[0], s[1], s[2]);
    } else {
      var rest := JoinSingles(s[1..], IsWordChar(s[0]));
      assert JoinSingles(s, afterWord) == [s[0]] + rest;
      JoinSinglesNonSpace(s[1..], IsWordChar(s[0]));
      NonSpaceConcat([s[0]], rest);
      assert s == [s[0]] + s[1..];
      NonSpaceConcat([s[0]], s[1..]);
    }
  }

  /** A slice of a text without adjacent whitespace has none either. */
  lemma SliceNoDoubleSpace(c: string, a: nat, b: nat)
    requires a <= b <= |c| && NoDoubleSpace(c)
    ensures NoDoubleSpace(c[a..b])
  {
    var t := c[a..b];
    forall i | 0 <= i < |t| - 1 ensures !(IsSpace(t[i]) && IsSpace(t[i + 1])) {
      assert t[i] == c[a + i] && t[i + 1] == c[a + i + 1];
    }
  }

  /** Stripping keeps the characters that are not whitespace. */
  lemma StripNonSpace(c: string)
    ensures NonSpace(Strip(c)) == NonSpace(c)
  {
    LStripNonSpace(c);
    RStripNonSpace(LStrip(c));
  }

  /** Stripping keeps a text free of adjacent whitespace. */
  lemma StripNoDoubleSpace(c: string)
    requires NoDoubleSpace(c)
    ensures NoDoubleSpace(Strip(c))
  {
    var l := LStrip(c);
    var r := RStrip(l);
    var off := |c| - |l|;
    assert r == c[off..off + |r|];
    SliceNoDoubleSpace(c, off, off + |r|);
  }

  /** `clean_spacing` leaves no whitespace at either end and no two adjacent
      whitespace characters, and keeps every other character in order. */
  lemma CleanSpacingSpec(s: string)
    ensures var r := CleanSpacing(s);
            && (r == [] || (!IsSpace(r[0]) && !IsSpace(r[|r| - 1])))
            && NoDoubleSpace(r)
            && NonSpace(r) == NonSpace(s)
  {
    var j := JoinSingles(s, false);
    JoinSinglesNonSpace(s, false);
    CollapseRunsSpec(j);
    StripNonSpace(CollapseRuns(j));
    StripNoDoubleSpace(CollapseRuns(j));
  }

  // ---------------------------------------------------------------------
  // Pages
  // ---------------------------------------------------------------------

  ghost predicate Increasing(s: seq<int>) {
    forall i, j :: 0 <= i < j < |s| ==> s[i] < s[j]
  }

  /** Insert `p` into an increasing sequence unless it is already there. */
  function InsertPage(p: int, s: seq<int>): (r: seq<int>)
    ensures forall q :: q in r <==> q == p || q in s
    ensures Increasing(s) ==> Increasing(r)
  {
    if s == [] then [p]
    else if p == s[0] then s
    else if p < s[0] then [p] + s
    else
      var rest := InsertPage(p, s[1..]);
      assert Increasing(s) ==> forall i :: 0 <= i < |rest| ==> s[0] < rest[i] by {
        if Increasing(s) {
          forall i | 0 <= i < |rest| ensures s[0] < rest[i] {
            assert rest[i] in rest;
          }
        }
      }
      [s[0]] + rest
  }

  /** `sorted({x["page"] for x in all})` */
  function PagesOf(all: seq<Line>): (r: seq<int>)
    ensures Increasing(r)
    ensures forall p :: p in r <==> HasPage(all, p)
  {
    if all == [] then []
    else
      var rest := PagesOf(all[1..]);
      assert forall p :: HasPage(all, p) <==> p == all[0].page || HasPage(all[1..], p) by {
        forall p | HasPage(all, p) && p != all[0].page ensures HasPage(all[1..], p) {
          var i :| 0 <= i < |all| && all[i].page == p;
          assert all[1..][i - 1] == all[i];
        }
        forall p | HasPage(all[1..], p) ensures HasPage(all, p) {
          var i :| 0 <= i < |all[1..]| && all[1..][i].page == p;
          assert all[i + 1] == all[1..][i];
        }
      }
      InsertPage(all[0].page, rest)
  }

  // ---------------------------------------------------------------------
  // The title
  // ---------------------------------------------------------------------

  /** The page-1 lines that are not from OCR. */
  function PageOneText(all: seq<Line>): (r: seq<Line>)
    ensures forall x :: x in r <==> x in all && x.page == 1 && !x.ocr
  {
    if all == [] then []
    else (if all[0].page == 1 && !all[0].ocr then [all[0]] else []) + PageOneText(all[1..])
  }

  /** The lines whose `font_ratio` is a number. */
  function WithRatio(lines: seq<Line>): (r: seq<Line>)
    ensures forall x :: x in r <==> x in lines && x.fontRatio.Some?
  {
    if lines == [] then []
    else (if lines[0].fontRatio.Some? then [lines[0]] else []) + WithRatio(lines[1..])
  }

  predicate AllHaveRatio(lines: seq<Line>) {
    forall i :: 0 <= i < |lines| ==> lines[i].fontRatio.Some?
  }

  /** `max(x["font_ratio"] for x in lines)` */
  function MaxRatio(lines: seq<Line>): real
    requires lines != [] && AllHaveRatio(lines)
  {
    if |lines| == 1 then lines[0].fontRatio.value
    else
      var m := MaxRatio(lines[1..]);
      if lines[0].fontRatio.value > m then lines[0].fontRatio.value else m
  }

  /** The largest ratio is the ratio of a line and no line has a larger one. */
  lemma {:induction false} MaxRatioSpec(lines: seq<Line>)
    requires lines != [] && AllHaveRatio(lines)
    ensures exists i :: 0 <= i < |lines| && lines[i].fontRatio.value == MaxRatio(lines)
    ensures forall i :: 0 <= i < |lines| ==> lines[i].fontRatio.value <= MaxRatio(lines)
  {
    if |lines| > 1 {
      MaxRatioSpec(lines[1..]);
      var k :| 0 <= k < |lines[1..]| && lines[1..][k].fontRatio.value == MaxRatio(lines[1..]);
      assert lines[k + 1] == lines[1..][k];
      forall i | 1 <= i < |lines| ensures lines[i].fontRatio.value <= MaxRatio(lines) {
        assert lines[i] == lines[1..][i - 1];
      }
    } else {
      assert lines[0].fontRatio.value == MaxRatio(lines);
    }
  }

  /** The lines whose ratio is at least `0.9 * m`. */
  function RatioCandidates(lines: seq<Line>, m: real): (r: seq<Line>)
    ensures forall x :: x in r <==> x in lines && x.fontRatio.Some? && x.fontRatio.value >= m * 0.9
  {
    if lines == [] then []
    else
      (if lines[0].fontRatio.Some? && lines[0].fontRatio.value >= m * 0.9 then [lines[0]] else [])
      + RatioCandidates(lines[1..], m)
  }

  /** The title order: top edge, then left edge. */
  function TitleKey(x: Line): seq<real> {
    if HasTop(x) then [x.bbox[1], x.bbox[0]] else [0.0, 0.0]
  }

  /** The text of every line. It projects the agents' `Line` records, where
      `Scoring.Texts` projects the classifier's `Fragment` records. */
  function Texts(lines: seq<Line>): (r: seq<string>)
    ensures |r| == |lines| && forall i :: 0 <= i < |lines| ==> r[i] == lines[i].text
  {
    seq(|lines|, i requires 0 <= i < |lines| => lines[i].text)
  }

  /** `max(lines, key=lambda x: x["font_size"])`: the first largest font. */
  function FirstLargest(lines: seq<Line>): Line
    requires lines != []
  {
    if |lines| == 1 then lines[0]
    else
      var r := FirstLargest(lines[1..]);
      if r.fontSize > lines[0].fontSize then r else lines[0]
  }

  /** The first largest font is a line's, no line's font is larger and every
      line before it has a smaller one. */
  lemma {:induction false} FirstLargestSpec(lines: seq<Line>) returns (k: nat)
    requires lines != []
    ensures k < |lines| && lines[k] == FirstLargest(lines)
    ensures forall i :: 0 <= i < |lines| ==> lines[i].fontSize <= lines[k].fontSize
    ensures forall i :: 0 <= i < k ==> lines[i].fontSize < lines[k].fontSize
  {
    if |lines| == 1 {
      k := 0;
    } else {
      var t := lines[1..];
      var k' := FirstLargestSpec(t);
      assert forall i :: 1 <= i < |lines| ==> lines[i] == t[i - 1];
      if FirstLargest(t).fontSize > lines[0].fontSize {
        k := k' + 1;
      } else {
        k := 0;
      }
    }
  }

  /** The title block of `validate`: the page-1 non-OCR lines with a ratio
      of at least 0.9 times the largest, in (top, left) order, joined with
      two spaces and cleaned; without such a line, the cleaned text of the
      first line with the largest font. Raises when a candidate has no top
      edge. */
  function TitleOf(all: seq<Line>): Result<string> {
    var valid := WithRatio(PageOneText(all));
    if valid == [] then Ok("")
    else
      assert AllHaveRatio(valid) by {
        forall i | 0 <= i < |valid| ensures valid[i].fontRatio.Some? {
          assert valid[i] in valid;
        }
      }
      var cands := RatioCandidates(valid, MaxRatio(valid));
      if cands != [] then
        if !AllHaveTop(cands) then Raised("IndexError: list index out of range")
        else Ok(CleanSpacing(Join("  ", Texts(SortBy(cands, TitleKey)))))
      else Ok(CleanSpacing(FirstLargest(valid).text))
  }

  /** The title candidates are exactly the page-1 non-OCR lines whose ratio
      is at least 0.9 times the largest such ratio; there is always one when
      that ratio is not negative, so the largest-font fallback is reached
      only when every ratio is negative. */
  lemma TitleCandidatesSpec(all: seq<Line>, valid: seq<Line>, cands: seq<Line>)
    requires valid == WithRatio(PageOneText(all)) && valid != []
    requires AllHaveRatio(valid) && cands == RatioCandidates(valid, MaxRatio(valid))
    ensures forall x :: x in cands <==>
              x in all && x.page == 1 && !x.ocr && x.fontRatio.Some? && x.fontRatio.value >= MaxRatio(valid) * 0.9
    ensures forall x :: x in all && x.page == 1 && !x.ocr && x.fontRatio.Some? ==> x.fontRatio.value <= MaxRatio(valid)
    ensures MaxRatio(valid) >= 0.0 ==> cands != []
  {
    MaxRatioSpec(valid);
    var k :| 0 <= k < |valid| && valid[k].fontRatio.value == MaxRatio(valid);
    forall x | x in all && x.page == 1 && !x.ocr && x.fontRatio.Some?
      ensures x.fontRatio.value <= MaxRatio(valid)
    {
      var i :| 0 <= i < |valid| && valid[i] == x;
    }
    if MaxRatio(valid) >= 0.0 {
      assert valid[k] in cands;
    }
  }

  /** The title candidates are joined in (top, left) order and none is lost
      or added. */
  lemma TitleOrderSpec(cands: seq<Line>, ordered: seq<Line>)
    requires AllHaveTop(cands) && ordered == SortBy(cands, TitleKey)
    ensures multiset(ordered) == multiset(cands) && AllHaveTop(ordered)
    ensures forall i, j :: 0 <= i < j < |ordered| ==>
              ordered[i].bbox[1] < ordered[j].bbox[1]
              || (ordered[i].bbox[1] == ordered[j].bbox[1] && ordered[i].bbox[0] <= ordered[j].bbox[0])
  {
    assert UniformKey(cands, TitleKey);
    SortByIsSorted(cands, TitleKey);
    forall i | 0 <= i < |ordered| ensures HasTop(ordered[i]) {
      assert ordered[i] in multiset(cands);
      var k :| 0 <= k < |cands| && cands[k] == ordered[i];
    }
    forall i, j | 0 <= i < j < |ordered|
      ensures ordered[i].bbox[1] < ordered[j].bbox[1]
              || (ordered[i].bbox[1] == ordered[j].bbox[1] && ordered[i].bbox[0] <= ordered[j].bbox[0])
    {
      var a := TitleKey(ordered[i]);
      var b := TitleKey(ordered[j]);
      assert LexLe(a, b);
      assert a == [ordered[i].bbox[1], ordered[i].bbox[0]] && b == [ordered[j].bbox[1], ordered[j].bbox[0]];
      if a[0] == b[0] {
        assert LexLe(a[1..], b[1..]);
        assert a[1..] == [ordered[i].bbox[0]] && b[1..] == [ordered[j].bbox[0]];
      }
    }
  }

  // ---------------------------------------------------------------------
  // Poster pages
  // ---------------------------------------------------------------------

  /** The lines on page `pg`. */
  function OnPage(all: seq<Line>, pg: int): (r: seq<Line>)
    ensures forall x :: x in r <==> x in all && x.page == pg
  {
    if all == [] then []
    else (if all[0].page == pg then [all[0]] else []) + OnPage(all[1..], pg)
  }

  /** `is_poster_like_page(page_data)`: some line comes from OCR. */
  predicate IsPosterLikePage(pageData: seq<Line>) {
    exists i :: 0 <= i < |pageData| && pageData[i].ocr
  }

  function OcrLines(lines: seq<Line>): (r: seq<Line>)
    ensures forall x :: x in r <==> x in lines && x.ocr
  {
    if lines == [] then []
    else (if lines[0].ocr then [lines[0]] else []) + OcrLines(lines[1..])
  }

  /** The lines with a lower-case ASCII letter, `re.search(r"[a-z]", text)`. */
  function MixedCase(lines: seq<Line>): (r: seq<Line>)
    ensures forall x :: x in r <==> x in lines && HasAsciiLower(x.text)
  {
    if lines == [] then []
    else (if HasAsciiLower(lines[0].text) then [lines[0]] else []) + MixedCase(lines[1..])
  }

  /** The OCR lines with a lower-case letter, or all OCR lines when none has one. */
  function PosterCandidates(pageData: seq<Line>): seq<Line> {
    var ocr := OcrLines(pageData);
    var mixed := MixedCase(ocr);
    if mixed != [] then mixed else ocr
  }

  /** `len(text.strip())` */
  function StrippedLength(text: string): int {
    |Strip(text)|
  }

  /** The key `(len(text.strip()), bbox[1])` of `a` exceeds that of `b`,
      with `len` the first component. */
  predicate Beats(a: Line, b: Line, len: string -> int)
    requires HasTop(a) && HasTop(b)
  {
    len(a.text) > len(b.text) || (len(a.text) == len(b.text) && a.bbox[1] > b.bbox[1])
  }

  /** `max(candidates, key=...)`: the first line no other line beats. */
  function BestLine(cands: seq<Line>, len: string -> int): (r: Line)
    requires cands != [] && AllHaveTop(cands)
    ensures r in cands
  {
    if |cands| == 1 then cands[0]
    else
      var r := BestLine(cands[1..], len);
      if Beats(r, cands[0], len) then r else cands[0]
  }

  /** The best line is a candidate that no candidate beats, and it beats
      every candidate before it. */
  lemma {:induction false} BestLineSpec(cands: seq<Line>, len: string -> int) returns (k: nat)
    requires cands != [] && AllHaveTop(cands)
    ensures k < |cands| && cands[k] == BestLine(cands, len)
    ensures forall i :: 0 <= i < |cands| ==> !Beats(cands[i], cands[k], len)
    ensures forall i :: 0 <= i < k ==> Beats(cands[k], cands[i], len)
  {
    if |cands| == 1 {
      k := 0;
    } else {
      var t := cands[1..];
      var k' := BestLineSpec(t, len);
      assert forall i :: 1 <= i < |cands| ==> cands[i] == t[i - 1];
      if Beats(BestLine(t, len), cands[0], len) {
        k := k' + 1;
      } else {
        k := 0;
        forall i | 0 <= i < |cands| ensures !Beats(cands[i], cands[0], len) {
          if i > 0 {
            assert !Beats(cands[i], t[k'], len);
          }
        }
      }
    }
  }

  /** The entry of a poster page: its best OCR line as H1, or nothing when a
      candidate has no top edge (the error is caught and the page skipped). */
  function PosterEntries(pageData: seq<Line>, pg: int): (r: seq<Entry>)
    ensures |r| <= 1
  {
    var cands := PosterCandidates(pageData);
    if cands == [] || !AllHaveTop(cands) then []
    else [Entry(H1, CleanSpacing(BestLine(cands, StrippedLength).text) + " ", pg)]
  }

  /** A poster page gives at most one entry, an H1 built from the cleaned
      text of one of its OCR lines (one with a lower-case letter when there
      is one) that no other such line beats. */
  lemma PosterEntriesSpec(pageData: seq<Line>, pg: int)
    ensures forall e :: e in PosterEntries(pageData, pg) ==>
              exists b :: b in pageData && b.ocr && e == Entry(H1, CleanSpacing(b.text) + " ", pg)
                          && (HasAsciiLower(b.text) || forall x :: x in pageData && x.ocr ==> !HasAsciiLower(x.text))
  {
    var cands := PosterCandidates(pageData);
    if cands != [] && AllHaveTop(cands) {
      var b := BestLine(cands, StrippedLength);
      assert b in cands;
      assert PosterEntries(pageData, pg) == [Entry(H1, CleanSpacing(b.text) + " ", pg)];
    }
  }

  // ---------------------------------------------------------------------
  // Other pages
  // ---------------------------------------------------------------------

  /** The headings on page `pg`. */
  function HeadingsOn(headings: seq<RankedEntry>, pg: int): (r: seq<RankedEntry>)
    ensures forall h :: h in r <==> h in headings && h.page == pg
  {
    if headings == [] then []
    else (if headings[0].page == pg then [headings[0]] else []) + HeadingsOn(headings[1..], pg)
  }

  function CleanedTexts(hs: seq<RankedEntry>): (r: seq<string>)
    ensures |r| == |hs| && forall i :: 0 <= i < |hs| ==> r[i] == CleanSpacing(hs[i].text)
  {
    seq(|hs|, i requires 0 <= i < |hs| => CleanSpacing(hs[i].text))
  }

  /** `Counter(ts)[t]` */
  function Occurrences(ts: seq<string>, t: string): nat {
    if ts == [] then 0 else (if ts[0] == t then 1 else 0) + Occurrences(ts[1..], t)
  }

  /** The headings whose cleaned text occurs at most three times in `ts`,
      with `clean` the cleaning. */
  function KeepRare(hs: seq<RankedEntry>, ts: seq<string>, clean: string -> string): (r: seq<RankedEntry>)
    ensures forall h :: h in r <==> h in hs && Occurrences(ts, clean(h.text)) <= 3
  {
    if hs == [] then []
    else (if Occurrences(ts, clean(hs[0].text)) <= 3 then [hs[0]] else []) + KeepRare(hs[1..], ts, clean)
  }

  predicate EntryHasTop(h: RankedEntry) { |h.bbox| >= 2 }

  predicate AllEntriesHaveTop(hs: seq<RankedEntry>) {
    forall i :: 0 <= i < |hs| ==> EntryHasTop(hs[i])
  }

  /** The heading order of a page: the top edge. */
  function YKey(h: RankedEntry): seq<real> {
    if EntryHasTop(h) then [h.bbox[1]] else [0.0]
  }

  /** `re.fullmatch(r"\d+\.?", txt)` */
  predicate IsNumberOnly(txt: string) {
    IsDigits(txt) || (|txt| >= 2 && txt[|txt| - 1] == '.' && IsDigits(txt[..|txt| - 1]))
  }

  /** A cleaned heading text `validate` leaves out: shorter than three
      characters, only a number, or a copyright notice. */
  predicate Skipped(txt: string) {
    |txt| < 3 || IsNumberOnly(txt)
    || Contains(Lower(txt), "copyright") || Contains(Lower(txt), "this document may be copied")
  }

  /** The entry of one heading, or none when its cleaned text is skipped;
      `clean` is the cleaning. */
  function EmitOne(h: RankedEntry, pg: int, clean: string -> string): seq<Entry> {
    var txt := clean(h.text);
    if Skipped(txt) then []
    else [Entry(h.level, txt + (if EndsWith(txt, " ") then "" else " "), pg)]
  }

  /** The entries of the headings of a page, in the given order. */
  function Emit(hs: seq<RankedEntry>, pg: int, clean: string -> string): (r: seq<Entry>)
    ensures |r| <= |hs|
  {
    if hs == [] then [] else Emit(hs[..|hs| - 1], pg, clean) + EmitOne(hs[|hs| - 1], pg, clean)
  }

  /** The entries of one page: a poster page's single H1, or the headings
      of the page that occur at most three times, in top-edge order, less
      the skipped ones. Raises when such a heading has no top edge. */
  function PageOutlineOf(headings: seq<RankedEntry>, all: seq<Line>, pg: int): Result<seq<Entry>> {
    var pageData := OnPage(all, pg);
    if IsPosterLikePage(pageData) then Ok(PosterEntries(pageData, pg))
    else
      var hs := HeadingsOn(headings, pg);
      var kept := KeepRare(hs, CleanedTexts(hs), CleanSpacing);
      if !AllEntriesHaveTop(kept) then Raised("IndexError: list index out of range")
      else Ok(Emit(SortBy(kept, YKey), pg, CleanSpacing))
  }

  /** The outline of the pages in order, with `page` the outline of one
      page; raises when a page raises. */
  function OutlineOf(pages: seq<int>, page: int -> Result<seq<Entry>>): Result<seq<Entry>> {
    if pages == [] then Ok([])
    else
      match OutlineOf(pages[..|pages| - 1], page)
      case Raised(e) => Raised(e)
      case Ok(prefix) =>
        match page(pages[|pages| - 1])
        case Raised(e) => Raised(e)
        case Ok(entries) => Ok(prefix + entries)
  }

  /** The outline of one page of the structure. */
  function PageOutliner(headings: seq<RankedEntry>, all: seq<Line>): int -> Result<seq<Entry>> {
    pg => PageOutlineOf(headings, all, pg)
  }

  /** The body of the `try` block. */
  function ValidateResult(headings: seq<RankedEntry>, all: seq<Line>): Result<Document> {
    match TitleOf(all)
    case Raised(e) => Raised(e)
    case Ok(title) =>
      match OutlineOf(PagesOf(all), PageOutliner(headings, all))
      case Raised(e) => Raised(e)
      case Ok(outline) => Ok(Document(Strip(title), outline))
  }

  /** `validate()`: any exception gives the empty document. */
  function Validated(headings: seq<RankedEntry>, all: seq<Line>): Document {
    match ValidateResult(headings, all)
    case Raised(_) => EmptyDocument
    case Ok(doc) => doc
  }

  // ---------------------------------------------------------------------
  // What the outline promises
  // ---------------------------------------------------------------------

  /** A cleaned text with no whitespace at its end does not end in a space. */
  lemma CleanedNotEndingInSpace(text: string)
    ensures !EndsWith(CleanSpacing(text), " ")
  {
    var t := CleanSpacing(text);
    CleanSpacingSpec(text);
    if |t| >= 1 {
      assert t[|t| - 1..] == [t[|t| - 1]];
    }
  }

  /** A heading's entry, when it has one, is its cleaned text followed by
      exactly one space, at its level and on the page. */
  lemma EmitOneSpec(h: RankedEntry, pg: int)
    ensures EmitOne(h, pg, CleanSpacing) == if Skipped(CleanSpacing(h.text)) then []
                              else [Entry(h.level, CleanSpacing(h.text) + " ", pg)]
  {
    CleanedNotEndingInSpace(h.text);
  }

  /** `e` is the entry of heading `h` on page `pg`, with `clean` the
      spacing clean-up. */
  predicate EntryOfHeadingBy(h: RankedEntry, pg: int, e: Entry, clean: string -> string) {
    var t := clean(h.text);
    !Skipped(t) && e == Entry(h.level, t + " ", pg)
  }

  /** `e` is the entry of heading `h` on page `pg`. */
  predicate EntryOfHeading(h: RankedEntry, pg: int, e: Entry) {
    EntryOfHeadingBy(h, pg, e, CleanSpacing)
  }

  /** The positions in `hs` of the headings `keep` accepts. */
  function Sources(hs: seq<RankedEntry>, keep: RankedEntry -> bool): seq<nat> {
    if hs == [] then []
    else Sources(hs[..|hs| - 1], keep) + (if keep(hs[|hs| - 1]) then [|hs| - 1] else [])
  }

  /** The headings that give an entry on page `pg`. */
  function Emits(pg: int, clean: string -> string): RankedEntry -> bool {
    h => EmitOne(h, pg, clean) != []
  }

  /** The positions in `hs` of the headings that give an entry. */
  function EmitSources(hs: seq<RankedEntry>, pg: int): seq<nat> {
    Sources(hs, Emits(pg, CleanSpacing))
  }

  /** `EmitSpec` for any clean-up that leaves no space at the end. */
  lemma {:induction false} EmitSpecBy(hs: seq<RankedEntry>, pg: int, clean: string -> string)
    requires forall t :: !EndsWith(clean(t), " ")
    ensures |Sources(hs, Emits(pg, clean))| == |Emit(hs, pg, clean)|
    ensures forall j :: 0 <= j < |Sources(hs, Emits(pg, clean))| ==>
              Sources(hs, Emits(pg, clean))[j] < |hs|
              && EntryOfHeadingBy(hs[Sources(hs, Emits(pg, clean))[j]], pg, Emit(hs, pg, clean)[j], clean)
  {
    if hs != [] {
      var n := |hs| - 1;
      var init := hs[..n];
      var keep := Emits(pg, clean);
      var one := EmitOne(hs[n], pg, clean);
      var tail := if keep(hs[n]) then [n] else [];
      EmitSpecBy(init, pg, clean);
      assert !EndsWith(clean(hs[n].text), " ");
      assert keep(hs[n]) == (one != []);
      var src0, es0 := Sources(init, keep), Emit(init, pg, clean);
      var src, es := Sources(hs, keep), Emit(hs, pg, clean);
      assert src == src0 + tail;
      assert es == es0 + one;
      forall j | 0 <= j < |src| ensures src[j] < |hs| && EntryOfHeadingBy(hs[src[j]], pg, es[j], clean) {
        if j < |src0| {
          assert src[j] == src0[j] && es[j] == es0[j];
          assert hs[src0[j]] == init[src0[j]];
        } else {
          assert src[j] == n && es[j] == one[0];
        }
      }
    }
  }

  /** The entries are those of the headings at increasing positions of
      `hs`: one per heading not skipped, in the order of `hs`. */
  lemma EmitSpec(hs: seq<RankedEntry>, pg: int)
    ensures |EmitSources(hs, pg)| == |Emit(hs, pg, CleanSpacing)|
    ensures forall j :: 0 <= j < |EmitSources(hs, pg)| ==>
              EmitSources(hs, pg)[j] < |hs| && EntryOfHeading(hs[EmitSources(hs, pg)[j]], pg, Emit(hs, pg, CleanSpacing)[j])
  {
    forall t ensures !EndsWith(CleanSpacing(t), " ") {
      CleanedNotEndingInSpace(t);
    }
    EmitSpecBy(hs, pg, CleanSpacing);
  }

  /** The positions of accepted headings are increasing positions of `hs`. */
  lemma {:induction false} SourcesIncrease(hs: seq<RankedEntry>, keep: RankedEntry -> bool)
    ensures forall j :: 0 <= j < |Sources(hs, keep)| ==> Sources(hs, keep)[j] < |hs|
    ensures forall i, j :: 0 <= i < j < |Sources(hs, keep)| ==> Sources(hs, keep)[i] < Sources(hs, keep)[j]
  {
    if hs != [] {
      SourcesIncrease(hs[..|hs| - 1], keep);
    }
  }

  /** Sorting by top edge puts the headings in top-edge order. */
  lemma SortedByTopEdge(kept: seq<RankedEntry>, ordered: seq<RankedEntry>)
    requires AllEntriesHaveTop(kept) && ordered == SortBy(kept, YKey)
    ensures AllEntriesHaveTop(ordered)
    ensures forall i, j :: 0 <= i < j < |ordered| ==> ordered[i].bbox[1] <= ordered[j].bbox[1]
  {
    assert UniformKey(kept, YKey);
    SortByIsSorted(kept, YKey);
    forall i | 0 <= i < |ordered| ensures EntryHasTop(ordered[i]) {
      assert ordered[i] in multiset(kept);
      var k :| 0 <= k < |kept| && kept[k] == ordered[i];
    }
    forall i, j | 0 <= i < j < |ordered| ensures ordered[i].bbox[1] <= ordered[j].bbox[1] {
      var a := YKey(ordered[i]);
      var b := YKey(ordered[j]);
      assert LexLe(a, b);
      assert a == [ordered[i].bbox[1]] && b == [ordered[j].bbox[1]];
    }
  }

  /** Within a page, the entries follow the top edges of their headings:
      with `keep` the headings that give an entry (`Emits`), the sources of
      the entries are in top-edge order. */
  lemma EmitFollowsTopEdges(kept: seq<RankedEntry>, ordered: seq<RankedEntry>, keep: RankedEntry -> bool)
    requires AllEntriesHaveTop(kept) && ordered == SortBy(kept, YKey)
    ensures forall i, j :: 0 <= i < j < |Sources(ordered, keep)| ==>
              Sources(ordered, keep)[i] < |ordered| && Sources(ordered, keep)[j] < |ordered|
              && EntryHasTop(ordered[Sources(ordered, keep)[i]]) && EntryHasTop(ordered[Sources(ordered, keep)[j]])
              && ordered[Sources(ordered, keep)[i]].bbox[1] <= ordered[Sources(ordered, keep)[j]].bbox[1]
  {
    SourcesIncrease(ordered, keep);
    SortedByTopEdge(kept, ordered);
  }

  /** Every entry of `Emit` is the entry of one of the headings. */
  lemma EmitOrigin(hs: seq<RankedEntry>, pg: int)
    ensures forall e :: e in Emit(hs, pg, CleanSpacing) ==> exists h :: h in hs && EntryOfHeading(h, pg, e)
  {
    forall t ensures !EndsWith(CleanSpacing(t), " ") {
      CleanedNotEndingInSpace(t);
    }
    EmitOriginBy(hs, pg, CleanSpacing);
  }

  /** `EmitOrigin` for any clean-up that leaves no space at the end. */
  lemma EmitOriginBy(hs: seq<RankedEntry>, pg: int, clean: string -> string)
    requires forall t :: !EndsWith(clean(t), " ")
    ensures forall e :: e in Emit(hs, pg, clean) ==> exists h :: h in hs && EntryOfHeadingBy(h, pg, e, clean)
  {
    var es := Emit(hs, pg, clean);
    var src := Sources(hs, Emits(pg, clean));
    EmitSpecBy(hs, pg, clean);
    forall e | e in es ensures exists h :: h in hs && EntryOfHeadingBy(h, pg, e, clean) {
      var j :| 0 <= j < |es| && es[j] == e;
      assert src[j] < |hs| && EntryOfHeadingBy(hs[src[j]], pg, es[j], clean);
      assert hs[src[j]] in hs;
    }
  }

  /** One page: a poster page gives at most one entry, an H1; any other
      page raises exactly when one of its headings occurring at most three
      times has no top edge, and otherwise gives entries only for such
      headings that are not skipped, each its cleaned text plus one space. */
  lemma PageOutlineSpec(headings: seq<RankedEntry>, all: seq<Line>, pg: int)
    ensures var r := PageOutlineOf(headings, all, pg);
            && (r.Ok? ==> forall e :: e in r.value ==> e.page == pg)
            && (IsPosterLikePage(OnPage(all, pg)) ==>
                  r.Ok? && |r.value| <= 1 && forall e :: e in r.value ==> e.level == H1)
    ensures var r := PageOutlineOf(headings, all, pg);
            var hs := HeadingsOn(headings, pg);
            !IsPosterLikePage(OnPage(all, pg)) ==>
              && (r.Raised? <==> exists h :: h in KeepRare(hs, CleanedTexts(hs), CleanSpacing) && !EntryHasTop(h))
              && (r.Ok? ==> forall e :: e in r.value ==>
                    exists h :: h in headings && h.page == pg
                                && Occurrences(CleanedTexts(hs), CleanSpacing(h.text)) <= 3
                                && EntryOfHeading(h, pg, e))
  {
    var pageData := OnPage(all, pg);
    if !IsPosterLikePage(pageData) {
      var hs := HeadingsOn(headings, pg);
      var kept := KeepRare(hs, CleanedTexts(hs), CleanSpacing);
      if AllEntriesHaveTop(kept) {
        var ordered := SortBy(kept, YKey);
        EmitOrigin(ordered, pg);
        forall h | h in ordered ensures h in kept {
          assert h in multiset(kept);
        }
      } else {
        var i :| 0 <= i < |kept| && !EntryHasTop(kept[i]);
        assert kept[i] in kept;
      }
    } else {
      var cands := PosterCandidates(pageData);
      assert PageOutlineOf(headings, all, pg) == Ok(PosterEntries(pageData, pg));
    }
  }

  // ---------------------------------------------------------------------
  // What the whole outline promises
  // ---------------------------------------------------------------------

  /** Some page among `pages` raises. */
  predicate SomePageRaises(pages: seq<int>, page: int -> Result<seq<Entry>>) {
    exists i :: 0 <= i < |pages| && page(pages[i]).Raised?
  }

  /** Every entry of a page is on that page. */
  ghost predicate EntriesOnTheirPage(page: int -> Result<seq<Entry>>) {
    forall pg, e :: page(pg).Ok? && e in page(pg).value ==> e.page == pg
  }

  /** The entries are in page order. */
  predicate PageOrdered(es: seq<Entry>) {
    forall i, j :: 0 <= i < j < |es| ==> es[i].page <= es[j].page
  }

  /** The outline of the pages raises exactly when one of the pages does;
      otherwise, when every page's entries are on that page, its entries
      are on the given pages, and in page order when the pages are
      increasing. */
  lemma {:induction false} OutlineOfSpec(pages: seq<int>, page: int -> Result<seq<Entry>>)
    ensures OutlineOf(pages, page).Raised? <==> SomePageRaises(pages, page)
    ensures OutlineOf(pages, page).Ok? && EntriesOnTheirPage(page) ==>
              forall e :: e in OutlineOf(pages, page).value ==> e.page in pages
    ensures OutlineOf(pages, page).Ok? && EntriesOnTheirPage(page) && Increasing(pages) ==>
              PageOrdered(OutlineOf(pages, page).value)
  {
    if pages != [] {
      var n := |pages| - 1;
      var init := pages[..n];
      OutlineOfSpec(init, page);
      assert forall i :: 0 <= i < n ==> init[i] == pages[i];
      assert SomePageRaises(pages, page) <==> SomePageRaises(init, page) || page(pages[n]).Raised? by {
        if SomePageRaises(pages, page) && !page(pages[n]).Raised? {
          var i :| 0 <= i < |pages| && page(pages[i]).Raised?;
          assert page(init[i]).Raised?;
        }
        if SomePageRaises(init, page) {
          var i :| 0 <= i < |init| && page(init[i]).Raised?;
          assert page(pages[i]).Raised?;
        }
      }
      var prev := OutlineOf(init, page);
      var last := page(pages[n]);
      if prev.Ok? && last.Ok? && EntriesOnTheirPage(page) {
        var r := prev.value + last.value;
        assert OutlineOf(pages, page) == Ok(r);
        assert forall e :: e in last.value ==> e.page == pages[n];
        forall e | e in r ensures e.page in pages {
          if e in prev.value {
            assert e.page in init;
          } else {
            assert e in last.value;
          }
        }
        if Increasing(pages) {
          assert Increasing(init);
          forall i, j | 0 <= i < j < |r| ensures r[i].page <= r[j].page {
            if j < |prev.value| {
              assert r[i] == prev.value[i] && r[j] == prev.value[j];
            } else if i < |prev.value| {
              assert r[i] in prev.value && r[j] in last.value;
              var q :| 0 <= q < n && init[q] == r[i].page;
            } else {
              assert r[i] in last.value && r[j] in last.value;
            }
          }
        }
      }
    }
  }

  /** Once a prefix of the pages raises, so do all of them. */
  lemma {:induction false} RaisedStaysRaised(pages: seq<int>, page: int -> Result<seq<Entry>>, k: nat)
    requires k <= |pages| && OutlineOf(pages[..k], page).Raised?
    ensures OutlineOf(pages, page).Raised?
  {
    if k == |pages| {
      assert pages[..k] == pages;
    } else {
      var n := |pages| - 1;
      assert pages[..n][..k] == pages[..k];
      RaisedStaysRaised(pages[..n], page, k);
    }
  }

  /** An entry text ending in exactly one space. */
  predicate OneTrailingSpace(text: string) {
    |text| >= 1 && text[|text| - 1] == ' ' && (|text| == 1 || !IsSpace(text[|text| - 2]))
  }

  /** Every entry of every page ends in exactly one space. */
  ghost predicate EntriesEndInOneSpace(page: int -> Result<seq<Entry>>) {
    forall pg, e :: page(pg).Ok? && e in page(pg).value ==> OneTrailingSpace(e.text)
  }

  /** When every page's entries end in exactly one space, so do the
      outline's. */
  lemma {:induction false} OutlineEndsInOneSpace(pages: seq<int>, page: int -> Result<seq<Entry>>)
    requires EntriesEndInOneSpace(page) && OutlineOf(pages, page).Ok?
    ensures forall e :: e in OutlineOf(pages, page).value ==> OneTrailingSpace(e.text)
  {
    if pages != [] {
      var n := |pages| - 1;
      OutlineEndsInOneSpace(pages[..n], page);
      var last := page(pages[n]);
      assert last.Ok?;
      assert OutlineOf(pages, page).value == OutlineOf(pages[..n], page).value + last.value;
      assert forall pg, e :: page(pg).Ok? && e in page(pg).value ==> OneTrailingSpace(e.text);
      assert forall e :: e in last.value ==> OneTrailingSpace(e.text);
    }
  }

  /** The cleaned text of any string followed by a space ends in exactly one space. */
  lemma CleanedPlusSpace(text: string)
    ensures OneTrailingSpace(CleanSpacing(text) + " ")
  {
    CleanSpacingSpec(text);
  }

  /** The entries of every page of the structure are on that page and end
      in exactly one space. */
  lemma PageOutlinerSpec(headings: seq<RankedEntry>, all: seq<Line>)
    ensures EntriesOnTheirPage(PageOutliner(headings, all))
    ensures EntriesEndInOneSpace(PageOutliner(headings, all))
  {
    var f := PageOutliner(headings, all);
    forall pg, e | f(pg).Ok? && e in f(pg).value ensures e.page == pg && OneTrailingSpace(e.text) {
      assert f(pg) == PageOutlineOf(headings, all, pg);
      PageEntryShape(headings, all, pg, e);
    }
  }

  /** An entry of one page's outline is on that page and ends in one space. */
  lemma PageEntryShape(headings: seq<RankedEntry>, all: seq<Line>, pg: int, e: Entry)
    requires PageOutlineOf(headings, all, pg).Ok? && e in PageOutlineOf(headings, all, pg).value
    ensures e.page == pg && OneTrailingSpace(e.text)
  {
    var pageData := OnPage(all, pg);
    PageOutlineSpec(headings, all, pg);
    if IsPosterLikePage(pageData) {
      PosterEntriesSpec(pageData, pg);
      var b :| b in pageData && b.ocr && e == Entry(H1, CleanSpacing(b.text) + " ", pg);
      CleanedPlusSpace(b.text);
    } else {
      var h :| h in headings && h.page == pg && EntryOfHeading(h, pg, e);
      CleanedPlusSpace(h.text);
    }
  }

  /** `validate()` gives a document exactly when the title and every page
      of the structure give one, and the empty document otherwise. Its
      title has no edge whitespace; its entries are in page order, each on
      a page of the structure and each ending in exactly one space. */
  lemma ValidateSpec(headings: seq<RankedEntry>, all: seq<Line>)
    ensures ValidateResult(headings, all).Ok? <==>
              TitleOf(all).Ok? && !SomePageRaises(PagesOf(all), PageOutliner(headings, all))
    ensures ValidateResult(headings, all).Raised? ==> Validated(headings, all) == EmptyDocument
    ensures var doc := Validated(headings, all);
            && (doc.title == [] || (!IsSpace(doc.title[0]) && !IsSpace(doc.title[|doc.title| - 1])))
            && PageOrdered(doc.outline)
            && (forall e :: e in doc.outline ==> HasPage(all, e.page) && OneTrailingSpace(e.text))
  {
    var pages := PagesOf(all);
    var f := PageOutliner(headings, all);
    OutlineOfSpec(pages, f);
    PageOutlinerSpec(headings, all);
    if TitleOf(all).Ok? && OutlineOf(pages, f).Ok? {
      OutlineEndsInOneSpace(pages, f);
    }
  }

  // ---------------------------------------------------------------------
  // The agent
  // ---------------------------------------------------------------------

  /** `ValidationAgent(headings, all_structure)` */
  class ValidationAgent {
    const headings: seq<RankedEntry>
    const allStructure: seq<Line>

    constructor(headings: seq<RankedEntry>, allStructure: seq<Line>)
      ensures this.headings == headings && this.allStructure == allStructure
    {
      this.headings := headings;
      this.allStructure := allStructure;
    }

    /** The loop over the sorted headings of a page, with `clean` the
        cleaning. */
    method EmitHeadings(ordered: seq<RankedEntry>, pg: int, clean: string -> string) returns (out: seq<Entry>)
      ensures out == Emit(ordered, pg, clean)
    {
      out := [];
      var i := 0;
      while i < |ordered|
        invariant 0 <= i <= |ordered|
        invariant out == Emit(ordered[..i], pg, clean)
      {
        var h := ordered[i];
        var txt := clean(h.text);
        if !Skipped(txt) {
          out := out + [Entry(h.level, txt + (if EndsWith(txt, " ") then "" else " "), pg)];
        }
        assert ordered[..i + 1][..i] == ordered[..i];
        i := i + 1;
      }
      assert ordered[..i] == ordered;
    }

    /** One iteration of the loop over the pages. */
    method PageOutline(pg: int) returns (r: Result<seq<Entry>>)
      ensures r == PageOutlineOf(headings, allStructure, pg)
    {
      var pageData := OnPage(allStructure, pg);
      if IsPosterLikePage(pageData) {
        return Ok(PosterEntries(pageData, pg));
      }
      var hs := HeadingsOn(headings, pg);
      var kept := KeepRare(hs, CleanedTexts(hs), CleanSpacing);
      if !AllEntriesHaveTop(kept) {
        return Raised("IndexError: list index out of range");
      }
      var entries := EmitHeadings(SortBy(kept, YKey), pg, CleanSpacing);
      return Ok(entries);
    }

    /** `validate()` */
    method Validate() returns (doc: Document)
      ensures doc == Validated(headings, allStructure)
    {
      var pages := PagesOf(allStructure);
      var title := TitleOf(allStructure);
      if title.Raised? {
        return EmptyDocument;
      }
      var outline := OutlinePages(pages);
      if outline.Raised? {
        return EmptyDocument;
      }
      doc := Document(Strip(title.value), outline.value);
    }

    /** The page loop of `validate()`: the outlines of the pages in order,
        stopping at the first page that raises. */
    method OutlinePages(pages: seq<int>) returns (r: Result<seq<Entry>>)
      ensures r.Raised? <==> OutlineOf(pages, PageOutliner(headings, allStructure)).Raised?
      ensures r.Ok? ==> r == OutlineOf(pages, PageOutliner(headings, allStructure))
    {
      ghost var outliner := PageOutliner(headings, allStructure);
      var outline: seq<Entry> := [];
      var k := 0;
      while k < |pages|
        invariant 0 <= k <= |pages|
        invariant OutlineOf(pages[..k], outliner) == Ok(outline)
      {
        var page := PageOutline(pages[k]);
        assert page == outliner(pages[k]);
        assert pages[..k + 1][..k] == pages[..k];
        if page.Raised? {
          RaisedStaysRaised(pages, outliner, k + 1);
          return Raised(page.error);
        }
        outline := outline + page.value;
        k := k + 1;
      }
      assert pages[..k] == pages;
      r := Ok(outline);
    }
  }
}
