/** `HierarchyAnalysisAgent`: scores every line by font-size z-score and
    layout cues, keeps the best few, maps their three largest distinct sizes
    to H1, H2 and H3, drops repeated texts and takes the longest page-1 H1 as
    the title; a form-like first page empties the outline. The agent object
    only holds its inputs, so its operations are functions of the lines. */
module Hierarchy {
  import opened Wrappers
  import opened PyStr
  import opened Records
  import opened Sorting
  import opened Clustering

  // ---------------------------------------------------------------------
  // Line score
  // ---------------------------------------------------------------------

  /** `{"mean": ..., "std": ...}` of the font sizes. */
  datatype SizeStats = SizeStats(mean: real, std: real)

  /** The font-size statistics of `rank_headings`: the mean, and the
      population standard deviation (`sqrt` of the mean squared deviation)
      when there are at least two sizes, else 1. */
  function SizeStatsOf(sizes: seq<real>, sqrt: real -> real): SizeStats
    requires sizes != []
  {
    var m := Mean(sizes);
    SizeStats(m, if |sizes| > 1 then sqrt(SquaredDeviations(sizes, m) / (|sizes| as real)) else 1.0)
  }

  /** The word-count term: a bonus for 2..10 words, a penalty for more than
      20 words and for at most one. */
  function LengthTerm(wc: nat): real {
    if 2 <= wc <= 10 then 0.5
    else if wc > 20 then -1.0
    else if wc <= 1 then -0.5
    else 0.0
  }

  /** The font-size term: twice the z-score when the sizes spread, else 0. */
  function SizeTerm(size: real, stats: SizeStats): real {
    if stats.std > 0.0 then (size - stats.mean) / stats.std * 2.0 else 0.0
  }

  /** The layout and text cues: bold, near the top of the page, OCR text,
      the word count and a closing colon. */
  function CueTerm(bold: bool, top: real, ocr: bool, text: string): real {
    (if bold then 1.0 else 0.0)
      + (if top < 200.0 then 0.75 else 0.0)
      - (if ocr then 0.5 else 0.0)
      + LengthTerm(|Split(text)|)
      - (if EndsWith(Strip(text), ":") then 0.8 else 0.0)
  }

  /** The score of a line whose box has a top edge. */
  function LineScore(line: Line, stats: SizeStats): real
    requires |line.bbox| >= 2
  {
    SizeTerm(line.fontSize, stats) + CueTerm(line.bold, line.bbox[1], line.ocr, line.text)
  }

  /** `score_line(line, stats)`: raises exactly when the box has no top edge. */
  function ScoreLine(line: Line, stats: SizeStats): (r: Result<real>)
    ensures r.Raised? <==> |line.bbox| < 2
    ensures r.Ok? ==> r.value == LineScore(line, stats)
  {
    if |line.bbox| < 2 then Raised("IndexError: list index out of range")
    else Ok(LineScore(line, stats))
  }

  /** With a positive spread, the size term grows with the size. */
  lemma SizeTermMonotone(a: real, b: real, stats: SizeStats)
    requires a <= b && stats.std > 0.0
    ensures SizeTerm(a, stats) <= SizeTerm(b, stats)
  {
    assert (b - stats.mean) / stats.std - (a - stats.mean) / stats.std == (b - a) / stats.std;
  }

  /** With a positive spread, a larger font never lowers the score, and
      making a line bold raises it by exactly 1. */
  lemma ScoreMonotone(line: Line, stats: SizeStats, a: real, b: real)
    requires |line.bbox| >= 2 && stats.std > 0.0 && a <= b
    ensures LineScore(line.(fontSize := a), stats) <= LineScore(line.(fontSize := b), stats)
    ensures LineScore(line.(bold := true), stats) == LineScore(line.(bold := false), stats) + 1.0
  {
    SizeTermMonotone(a, b, stats);
    var c := CueTerm(false, line.bbox[1], line.ocr, line.text);
    assert CueTerm(true, line.bbox[1], line.ocr, line.text) == c + 1.0;
  }

  // ---------------------------------------------------------------------
  // Levels of the three largest sizes
  // ---------------------------------------------------------------------

  /** The font size of every line. It projects the agents' `Line` records,
      where `Classifier.FontSizes` projects the classifier's `Fragment`
      records. */
  function LineSizes(lines: seq<Line>): (r: seq<real>)
    ensures |r| == |lines| && forall i :: 0 <= i < |lines| ==> r[i] == lines[i].fontSize
  {
    seq(|lines|, i requires 0 <= i < |lines| => lines[i].fontSize)
  }

  /** `determine_levels(top_lines)` over the distinct sizes in descending
      order. */
  function LevelsFor(u: seq<real>): map<real, Level> {
    if u == [] then map[]
    else
      map[u[0] := H1]
      + (if |u| > 1 then map[u[1] := H2] else map[])
      + (if |u| > 2 then map[u[2] := H3] else map[])
  }

  /** `determine_levels(top_lines)` */
  function DetermineLevels(lines: seq<Line>): map<real, Level> {
    LevelsFor(DistinctDesc(LineSizes(lines)))
  }

  /** `level_map.get(size, "H3")` */
  function LevelOf(levels: map<real, Level>, size: real): Level {
    if size in levels then levels[size] else H3
  }

  /** In a strictly decreasing sequence the values above `u[k]` are the
      ones before it. */
  lemma AboveIsBefore(u: seq<real>, k: nat, t: real)
    requires StrictlyDecreasing(u) && k < |u|
    ensures t in u && t > u[k] <==> t in u[..k]
  {
    if t in u[..k] {
      var j :| 0 <= j < k && u[..k][j] == t;
      assert u[j] == t;
    }
    if t in u && t > u[k] {
      var j :| 0 <= j < |u| && u[j] == t;
      assert j < k;
      assert u[..k][j] == t;
    }
  }

  /** The sizes above `s`. */
  predicate Above(sizes: seq<real>, s: real, t: real) {
    t in sizes && t > s
  }

  /** Over any sizes, the largest distinct size maps to H1, the one with
      exactly one distinct size above it to H2, the one with exactly two
      above it to H3, and no other size is mapped. */
  lemma LevelsForSpec(sizes: seq<real>, s: real)
    ensures var levels := LevelsFor(DistinctDesc(sizes));
            && (s in levels ==> s in sizes)
            && (s in sizes ==>
                  && (s in levels && levels[s] == H1 <==> NoneAbove(sizes, s))
                  && (s in levels && levels[s] == H2 <==> OneAbove(sizes, s))
                  && (s in levels && levels[s] == H3 <==> TwoAbove(sizes, s)))
  {
    var u := DistinctDesc(sizes);
    if s in LevelsFor(u) {
      assert s == u[0] || (|u| > 1 && s == u[1]) || (|u| > 2 && s == u[2]);
      assert s in u;
    }
    if s in sizes {
      SizeLevel(sizes, u, s);
    }
  }

  lemma SizeLevel(sizes: seq<real>, u: seq<real>, s: real)
    requires u == DistinctDesc(sizes) && s in sizes
    ensures Levelled(sizes, u, s)
  {
    assert s in u;
    var k :| 0 <= k < |u| && u[k] == s;
    if k == 0 {
      FirstLevel(sizes, u);
    } else if k == 1 {
      SecondLevel(sizes, u);
    } else if k == 2 {
      ThirdLevel(sizes, u);
    } else {
      NoLevel(sizes, u, k);
    }
  }

  /** `s` maps to H1, H2 or H3 exactly when none, one or two sizes are
      above it. */
  ghost predicate Levelled(sizes: seq<real>, u: seq<real>, s: real) {
    var levels := LevelsFor(u);
    && (s in levels && levels[s] == H1 <==> NoneAbove(sizes, s))
    && (s in levels && levels[s] == H2 <==> OneAbove(sizes, s))
    && (s in levels && levels[s] == H3 <==> TwoAbove(sizes, s))
  }

  lemma FirstLevel(sizes: seq<real>, u: seq<real>)
    requires u == DistinctDesc(sizes) && |u| > 0
    ensures Levelled(sizes, u, u[0])
  {
    AboveIsPrefix(sizes, u, 0);
    LevelZero(sizes, u, u[0]);
  }

  lemma SecondLevel(sizes: seq<real>, u: seq<real>)
    requires u == DistinctDesc(sizes) && |u| > 1
    ensures Levelled(sizes, u, u[1])
  {
    AboveIsPrefix(sizes, u, 1);
    assert u[0] in u;
    LevelOne(sizes, u, u[1]);
  }

  lemma ThirdLevel(sizes: seq<real>, u: seq<real>)
    requires u == DistinctDesc(sizes) && |u| > 2
    ensures Levelled(sizes, u, u[2])
  {
    assert u[0] in u && u[1] in u;
    AboveIsPrefix(sizes, u, 2);
    LevelTwo(sizes, u, u[2]);
    ThirdLevelled(sizes, u, u[2]);
  }

  lemma ThirdLevelled(sizes: seq<real>, u: seq<real>, s: real)
    requires s in LevelsFor(u) && LevelsFor(u)[s] == H3
    requires !NoneAbove(sizes, s) && !OneAbove(sizes, s) && TwoAbove(sizes, s)
    ensures Levelled(sizes, u, s)
  {
  }

  lemma NoLevel(sizes: seq<real>, u: seq<real>, k: nat)
    requires u == DistinctDesc(sizes) && 2 < k < |u|
    ensures Levelled(sizes, u, u[k])
  {
    assert u[0] in u && u[1] in u && u[2] in u;
    LevelBeyond(sizes, u, k, u[k]);
  }

  /** The sizes above the `k`-th distinct size are the ones before it. */
  lemma AboveIsPrefix(sizes: seq<real>, u: seq<real>, k: nat)
    requires u == DistinctDesc(sizes) && k < |u|
    ensures forall t :: Above(sizes, u[k], t) <==> t in u[..k]
  {
    forall t ensures Above(sizes, u[k], t) <==> t in u[..k] {
      AboveIsBefore(u, k, t);
    }
  }

  /** No size is above `s`. */
  ghost predicate NoneAbove(sizes: seq<real>, s: real) {
    forall t :: !Above(sizes, s, t)
  }

  /** Exactly one distinct size is above `s`. */
  ghost predicate OneAbove(sizes: seq<real>, s: real) {
    exists a :: Above(sizes, s, a) && forall t :: Above(sizes, s, t) ==> t == a
  }

  /** Two sizes, one above the other, are the only ones above `s`. */
  ghost predicate TwoAbove(sizes: seq<real>, s: real) {
    exists a, b :: Above(sizes, b, a) && Above(sizes, s, b)
                   && forall t :: Above(sizes, s, t) ==> t == a || t == b
  }

  lemma LevelZero(sizes: seq<real>, u: seq<real>, s: real)
    requires StrictlyDecreasing(u) && u != [] && u[0] == s
    requires forall t :: Above(sizes, s, t) <==> t in u[..0]
    ensures var levels := LevelsFor(u);
            && s in levels && levels[s] == H1
            && NoneAbove(sizes, s) && !OneAbove(sizes, s) && !TwoAbove(sizes, s)
  {
  }

  lemma LevelOne(sizes: seq<real>, u: seq<real>, s: real)
    requires StrictlyDecreasing(u) && |u| > 1 && u[1] == s && u[0] in sizes
    requires forall t :: Above(sizes, s, t) <==> t in u[..1]
    ensures var levels := LevelsFor(u);
            && s in levels && levels[s] == H2
            && !NoneAbove(sizes, s) && OneAbove(sizes, s) && !TwoAbove(sizes, s)
  {
    assert u[..1] == [u[0]];
    assert u[0] > u[1];
    assert Above(sizes, s, u[0]) && forall t :: Above(sizes, s, t) ==> t == u[0];
    assert forall a, b :: Above(sizes, s, a) && Above(sizes, s, b) ==> a == b;
    assert forall a, b :: Above(sizes, b, a) && Above(sizes, s, b) ==> Above(sizes, s, a);
  }

  lemma LevelTwo(sizes: seq<real>, u: seq<real>, s: real)
    requires StrictlyDecreasing(u) && |u| > 2 && u[2] == s && u[0] in sizes && u[1] in sizes
    requires forall t :: Above(sizes, s, t) <==> t in u[..2]
    ensures s in LevelsFor(u) && LevelsFor(u)[s] == H3
    ensures !NoneAbove(sizes, s) && !OneAbove(sizes, s) && TwoAbove(sizes, s)
  {
    assert u[..2] == [u[0], u[1]];
    assert u[0] > u[1] > u[2];
    ThirdKey(u);
    assert Above(sizes, u[1], u[0]) && Above(sizes, s, u[1]);
    assert !NoneAbove(sizes, s);
    assert forall t :: Above(sizes, s, t) ==> t == u[0] || t == u[1];
    assert TwoAbove(sizes, s);
    forall a | Above(sizes, s, a) ensures exists t :: Above(sizes, s, t) && t != a {
      var w := if a != u[0] then u[0] else u[1];
      assert Above(sizes, s, w) && w != a;
    }
    assert !OneAbove(sizes, s);
  }

  /** The third distinct size maps to H3. */
  lemma ThirdKey(u: seq<real>)
    requires |u| > 2 && u[2] != u[0] && u[2] != u[1]
    ensures u[2] in LevelsFor(u) && LevelsFor(u)[u[2]] == H3
  {
  }

  lemma LevelBeyond(sizes: seq<real>, u: seq<real>, k: nat, s: real)
    requires StrictlyDecreasing(u) && 2 < k < |u| && u[k] == s
    requires u[0] in sizes && u[1] in sizes && u[2] in sizes
    ensures s !in LevelsFor(u)
    ensures !NoneAbove(sizes, s) && !OneAbove(sizes, s) && !TwoAbove(sizes, s)
  {
    if s in LevelsFor(u) {
      LevelsForKeys(u, s);
    }
    assert u[0] > u[k] && u[1] > u[k] && u[2] > u[k];
    assert u[0] > u[1] > u[2];
    assert Above(sizes, s, u[0]) && Above(sizes, s, u[1]) && Above(sizes, s, u[2]);
    ThreeAbove(sizes, s, u[0], u[1], u[2]);
  }

  /** Only the first three sizes get a level. */
  lemma LevelsForKeys(u: seq<real>, x: real)
    requires x in LevelsFor(u)
    ensures x == u[0] || (|u| > 1 && x == u[1]) || (|u| > 2 && x == u[2])
  {
  }

  /** Three distinct sizes above `s` leave neither one nor two above it. */
  lemma ThreeAbove(sizes: seq<real>, s: real, x: real, y: real, z: real)
    requires Above(sizes, s, x) && Above(sizes, s, y) && Above(sizes, s, z)
    requires x != y && y != z && x != z
    ensures !OneAbove(sizes, s) && !TwoAbove(sizes, s)
  {
    forall a | Above(sizes, s, a) ensures exists t :: Above(sizes, s, t) && t != a {
      var w := if a != x then x else y;
      assert Above(sizes, s, w) && w != a;
    }
    forall a, b | Above(sizes, b, a) && Above(sizes, s, b)
      ensures exists t :: Above(sizes, s, t) && t != a && t != b
    {
      var w := if x != a && x != b then x else if y != a && y != b then y else z;
      assert Above(sizes, s, w) && w != a && w != b;
    }
  }

  /** `determine_levels(top_lines)` on the sizes of the lines; no lines give
      no levels. */
  lemma DetermineLevelsSpec(lines: seq<Line>, s: real)
    ensures lines == [] ==> DetermineLevels(lines) == map[]
    ensures var sizes := LineSizes(lines);
            var levels := DetermineLevels(lines);
            && (s in levels ==> s in sizes)
            && (s in sizes ==>
                  && (s in levels && levels[s] == H1 <==> NoneAbove(sizes, s))
                  && (s in levels && levels[s] == H2 <==> OneAbove(sizes, s))
                  && (s in levels && levels[s] == H3 <==> TwoAbove(sizes, s)))
  {
    LevelsForSpec(LineSizes(lines), s);
  }

  // ---------------------------------------------------------------------
  // Form-like first pages
  // ---------------------------------------------------------------------

  /** The lines on page 1. */
  function PageOne(data: seq<Line>): (r: seq<Line>)
    ensures |r| <= |data|
    ensures forall l :: l in r <==> l in data && l.page == 1
  {
    if data == [] then []
    else (if data[0].page == 1 then [data[0]] else []) + PageOne(data[1..])
  }

  /** `text.strip().split()[0].rstrip(".").isdigit()` for a line with words. */
  predicate NumberedLabel(l: Line)
    requires Split(Strip(l.text)) != []
  {
    IsPyDigits(RStripChar(Split(Strip(l.text))[0], '.'))
  }

  predicate ColonEnded(l: Line) {
    EndsWith(Strip(l.text), ":")
  }

  /** The number of numbered labels; `None` when some line has no words,
      where `split()[0]` raises. */
  function NumberedCount(lines: seq<Line>): (r: Option<nat>)
    ensures r.Some? ==> r.value <= |lines|
  {
    if lines == [] then Some(0)
    else if Split(Strip(lines[0].text)) == [] then None
    else
      var rest := NumberedCount(lines[1..]);
      if rest.None? then None
      else Some((if NumberedLabel(lines[0]) then 1 else 0) + rest.value)
  }

  function ColonCount(lines: seq<Line>): (r: nat)
    ensures r <= |lines|
  {
    if lines == [] then 0
    else (if ColonEnded(lines[0]) then 1 else 0) + ColonCount(lines[1..])
  }

  /** `is_form_like()`: at least five page-1 lines are numbered labels or end
      in a colon, counting a line once for each. */
  function IsFormLike(data: seq<Line>): Result<bool> {
    var p1 := PageOne(data);
    match NumberedCount(p1)
    case None => Raised("IndexError: list index out of range")
    case Some(numbered) => Ok(numbered + ColonCount(p1) >= 5)
  }

  lemma {:induction false} NumberedCountRaises(lines: seq<Line>)
    ensures NumberedCount(lines).None? <==> exists l :: l in lines && Split(Strip(l.text)) == []
  {
    if lines != [] {
      NumberedCountRaises(lines[1..]);
      assert forall l :: l in lines <==> l == lines[0] || l in lines[1..];
    }
  }

  /** `is_form_like` raises exactly when a page-1 line has no words, and a
      first page of at most two lines is never form-like. */
  lemma FormLikeSpec(data: seq<Line>)
    ensures IsFormLike(data).Raised? <==> exists l :: l in data && l.page == 1 && Split(Strip(l.text)) == []
    ensures |PageOne(data)| <= 2 && IsFormLike(data).Ok? ==> !IsFormLike(data).value
  {
    var p1 := PageOne(data);
    NumberedCountRaises(p1);
  }

  // ---------------------------------------------------------------------
  // Ranking
  // ---------------------------------------------------------------------

  /** The lines not on a table-of-contents page. `is_toc_page` is not part
      of this model: it is the parameter `isToc`. */
  function NonToc(data: seq<Line>, isToc: (seq<Line>, int) -> bool): (r: seq<Line>)
    ensures |r| <= |data|
    ensures forall l :: l in r <==> l in data && !isToc(data, l.page)
  {
    NonTocFrom(data, data, isToc)
  }

  function NonTocFrom(all: seq<Line>, lines: seq<Line>, isToc: (seq<Line>, int) -> bool): (r: seq<Line>)
    ensures |r| <= |lines|
    ensures forall l :: l in r <==> l in lines && !isToc(all, l.page)
  {
    if lines == [] then []
    else (if isToc(all, lines[0].page) then [] else [lines[0]]) + NonTocFrom(all, lines[1..], isToc)
  }

  /** `score_line` with `stats` as a function of the line (0 for a line
      without a top edge, which `rank_headings` never scores). */
  function LineScorer(stats: SizeStats): Line -> real {
    (l: Line) => if HasTop(l) then LineScore(l, stats) else 0.0
  }

  /** Every line paired with its score. */
  function ScoredLines(lines: seq<Line>, score: Line -> real): (r: seq<(real, Line)>)
    ensures |r| == |lines| && forall i :: 0 <= i < |lines| ==> r[i] == (score(lines[i]), lines[i])
  {
    seq(|lines|, i requires 0 <= i < |lines| => (score(lines[i]), lines[i]))
  }

  /** Higher score first. */
  function ScoreKey(p: (real, Line)): seq<real> { [-p.0] }

  /** `max(5, int(0.05 * n))` */
  function TopK(n: nat): nat {
    if n / 20 > 5 then n / 20 else 5
  }

  /** The lines of the `top_k` best scores, in descending score order and in
      input order among equal scores. */
  function TopLines(scored: seq<(real, Line)>): (top: seq<Line>)
    ensures |top| == if TopK(|scored|) < |scored| then TopK(|scored|) else |scored|
    ensures forall i :: 0 <= i < |top| ==> top[i] == SortBy(scored, ScoreKey)[i].1
  {
    var sorted := SortBy(scored, ScoreKey);
    var k := if TopK(|scored|) < |sorted| then TopK(|sorted|) else |sorted|;
    seq(k, i requires 0 <= i < k => sorted[i].1)
  }

  /** The best `top_k` pairs of the score-descending order have the highest
      scores: none of the pairs left out scores above any kept one. */
  lemma TopLinesHighest(scored: seq<(real, Line)>, sorted: seq<(real, Line)>, k: nat)
    requires sorted == SortBy(scored, ScoreKey) && k <= |sorted|
    ensures multiset(sorted[..k]) + multiset(sorted[k..]) == multiset(scored)
    ensures forall p, q :: p in sorted[..k] && q in sorted[k..] ==> p.0 >= q.0
  {
    assert sorted == sorted[..k] + sorted[k..];
    forall p, q | p in sorted[..k] && q in sorted[k..] ensures p.0 >= q.0 {
      var i :| 0 <= i < k && sorted[..k][i] == p;
      var j :| 0 <= j < |sorted| - k && sorted[k..][j] == q;
      ScoreOrder(scored, sorted, i, k + j);
    }
  }

  /** `scored.sort(reverse=True, key=...)` keeps lines of equal score in
      their input order, so the cut at `top_k` and the first-line-wins
      deduplication see ties in document order. */
  lemma ScoreTiesKeepOrder(scored: seq<(real, Line)>, v: real)
    ensures WithKey(SortBy(scored, ScoreKey), ScoreKey, [-v]) == WithKey(scored, ScoreKey, [-v])
  {
    SortByStable(scored, ScoreKey, [-v]);
  }

  /** The score-descending order puts no pair above an earlier one. */
  lemma ScoreOrder(scored: seq<(real, Line)>, sorted: seq<(real, Line)>, i: nat, j: nat)
    requires sorted == SortBy(scored, ScoreKey) && i < j < |sorted|
    ensures sorted[i].0 >= sorted[j].0
  {
    assert UniformKey(scored, ScoreKey);
    SortByIsSorted(scored, ScoreKey);
    assert LexLe(ScoreKey(sorted[i]), ScoreKey(sorted[j]));
  }

  /** The outline entry of a line. */
  function EntryFor(levels: map<real, Level>, l: Line): RankedEntry {
    RankedEntry(LevelOf(levels, l.fontSize), l.text, l.page, l.bbox)
  }

  function TextsOf(lines: seq<Line>): set<string> {
    set l | l in lines :: l.text
  }

  /** The outline loop: one entry per line whose text no earlier line had. */
  function Dedup(top: seq<Line>, levels: map<real, Level>): (r: seq<RankedEntry>)
    ensures |r| <= |top|
  {
    if top == [] then []
    else
      var n := |top| - 1;
      Dedup(top[..n], levels) + (if top[n].text in TextsOf(top[..n]) then [] else [EntryFor(levels, top[n])])
  }

  /** A line is the first in `top` with its text. */
  predicate FirstWithText(top: seq<Line>, k: nat)
    requires k < |top|
  {
    forall m :: 0 <= m < k ==> top[m].text != top[k].text
  }

  /** `e` is the entry of the first line in `top` with its text. */
  predicate FromFirst(top: seq<Line>, levels: map<real, Level>, e: RankedEntry) {
    exists k :: 0 <= k < |top| && FirstWithText(top, k) && e == EntryFor(levels, top[k])
  }

  /** Each outline entry is the entry of the first line with its text. */
  lemma {:induction false} DedupOrigin(top: seq<Line>, levels: map<real, Level>)
    ensures forall i :: 0 <= i < |Dedup(top, levels)| ==> FromFirst(top, levels, Dedup(top, levels)[i])
  {
    if top != [] {
      var n := |top| - 1;
      var init := top[..n];
      var prev := Dedup(init, levels);
      var r := Dedup(top, levels);
      DedupOrigin(init, levels);
      assert forall m :: 0 <= m < n ==> init[m] == top[m];
      forall i | 0 <= i < |r| ensures FromFirst(top, levels, r[i])
      {
        if i < |prev| {
          assert FromFirst(init, levels, prev[i]);
          var k :| 0 <= k < n && FirstWithText(init, k) && prev[i] == EntryFor(levels, init[k]);
          assert r[i] == prev[i];
          assert FirstWithText(top, k);
        } else {
          assert r[i] == EntryFor(levels, top[n]);
          forall m | 0 <= m < n ensures top[m].text != top[n].text {
            assert init[m] in init;
          }
          assert FirstWithText(top, n);
        }
      }
    } else {
      assert Dedup(top, levels) == [];
    }
  }

  /** The outline texts are pairwise distinct. */
  lemma {:induction false} DedupDistinct(top: seq<Line>, levels: map<real, Level>)
    ensures forall i, j :: 0 <= i < j < |Dedup(top, levels)| ==> Dedup(top, levels)[i].text != Dedup(top, levels)[j].text
  {
    if top != [] {
      var n := |top| - 1;
      var init := top[..n];
      var prev := Dedup(init, levels);
      var r := Dedup(top, levels);
      DedupDistinct(init, levels);
      assert forall i :: 0 <= i < |prev| ==> r[i] == prev[i];
      if top[n].text !in TextsOf(init) {
        DedupOrigin(init, levels);
        forall i | 0 <= i < |prev| ensures prev[i].text != top[n].text {
          assert FromFirst(init, levels, prev[i]);
          var k :| 0 <= k < n && FirstWithText(init, k) && prev[i] == EntryFor(levels, init[k]);
          assert init[k] in init;
        }
      }
    }
  }

  /** Every line's text has an outline entry. */
  lemma {:induction false} DedupCovers(top: seq<Line>, levels: map<real, Level>)
    ensures forall k :: 0 <= k < |top| ==>
              exists i :: 0 <= i < |Dedup(top, levels)| && Dedup(top, levels)[i].text == top[k].text
  {
    if top != [] {
      var n := |top| - 1;
      var init := top[..n];
      var prev := Dedup(init, levels);
      var r := Dedup(top, levels);
      DedupCovers(init, levels);
      assert forall i :: 0 <= i < |prev| ==> r[i] == prev[i];
      assert forall m :: 0 <= m < n ==> init[m] == top[m];
      forall k | 0 <= k < |top| ensures exists i :: 0 <= i < |r| && r[i].text == top[k].text {
        if k < n {
          var i :| 0 <= i < |prev| && prev[i].text == init[k].text;
          assert r[i].text == top[k].text;
        } else if top[n].text in TextsOf(init) {
          var l :| l in init && l.text == top[n].text;
          var m :| 0 <= m < n && init[m] == l;
          var i :| 0 <= i < |prev| && prev[i].text == init[m].text;
          assert r[i].text == top[n].text;
        } else {
          assert r[|prev|].text == top[n].text;
        }
      }
      assert r == Dedup(top, levels);
    }
  }

  /** The outline entries eligible as title: H1 entries on page 1. */
  function TitleCandidates(outline: seq<RankedEntry>): (r: seq<RankedEntry>)
    ensures forall e :: e in r <==> e in outline && e.level == H1 && e.page == 1
  {
    if outline == [] then []
    else (if outline[0].level == H1 && outline[0].page == 1 then [outline[0]] else [])
         + TitleCandidates(outline[1..])
  }

  /** `max(cands, key=lambda x: len(x["text"]))`: the first longest. */
  function Longest(cands: seq<RankedEntry>): RankedEntry
    requires cands != []
  {
    if |cands| == 1 then cands[0]
    else
      var r := Longest(cands[1..]);
      if |r.text| > |cands[0].text| then r else cands[0]
  }

  /** The longest candidate is one of them, no candidate is longer and every
      candidate before it is shorter. */
  lemma {:induction false} LongestSpec(cands: seq<RankedEntry>) returns (k: nat)
    requires cands != []
    ensures k < |cands| && cands[k] == Longest(cands)
    ensures forall i :: 0 <= i < |cands| ==> |cands[i].text| <= |cands[k].text|
    ensures forall i :: 0 <= i < k ==> |cands[i].text| < |cands[k].text|
  {
    if |cands| == 1 {
      k := 0;
    } else {
      var t := cands[1..];
      var k' := LongestSpec(t);
      assert forall i :: 1 <= i < |cands| ==> cands[i] == t[i - 1];
      if |Longest(t).text| > |cands[0].text| {
        k := k' + 1;
      } else {
        k := 0;
      }
    }
  }

  /** The title: the longest page-1 H1 text, or empty. */
  function TitleOf(outline: seq<RankedEntry>): string {
    var cands := TitleCandidates(outline);
    if cands == [] then "" else Longest(cands).text
  }

  /** The document `rank_headings` returns for an outline: the stripped
      title, and the outline unless the first page is form-like. */
  function Assemble(outline: seq<RankedEntry>, formLike: Result<bool>): Result<RankedDocument> {
    match formLike
    case Raised(e) => Raised(e)
    case Ok(f) => Ok(RankedDocument(Strip(TitleOf(outline)), if f then [] else outline))
  }

  /** The title is the stripped longest page-1 H1 text (empty without one);
      a form-like document keeps its title but has an empty outline. */
  lemma AssembleSpec(outline: seq<RankedEntry>, formLike: Result<bool>)
    ensures Assemble(outline, formLike).Raised? <==> formLike.Raised?
    ensures formLike.Ok? ==>
              var doc := Assemble(outline, formLike).value;
              && doc.outline == (if formLike.value then [] else outline)
              && ((forall e :: e in outline ==> !(e.level == H1 && e.page == 1)) ==> doc.title == "")
              && (forall e :: e in outline && e.level == H1 && e.page == 1 ==>
                    exists t :: t in outline && t.level == H1 && t.page == 1
                                && doc.title == Strip(t.text) && |e.text| <= |t.text|)
  {
    var cands := TitleCandidates(outline);
    if cands != [] {
      var k := LongestSpec(cands);
      assert cands[k] in cands;
    } else {
      assert Strip("") == "";
    }
  }

  /** `rank_headings()` once every kept line has been scored. */
  function Ranked(data: seq<Line>, kept: seq<Line>, stats: SizeStats): Result<RankedDocument>
    requires AllHaveTop(kept)
  {
    var top := TopLines(ScoredLines(kept, LineScorer(stats)));
    Assemble(Dedup(top, DetermineLevels(top)), IsFormLike(data))
  }

  /** `rank_headings()`: the empty document for no lines; raises when a
      scored line has no top edge or `is_form_like` raises. */
  function RankHeadingsSpec(data: seq<Line>, isToc: (seq<Line>, int) -> bool, sqrt: real -> real): Result<RankedDocument> {
    if data == [] then Ok(RankedDocument("", []))
    else
      var kept := NonToc(data, isToc);
      if !AllHaveTop(kept) then Raised("IndexError: list index out of range")
      else Ranked(data, kept, SizeStatsOf(LineSizes(data), sqrt))
  }

  /** What `rank_headings` promises when it returns: the outline it built
      from the top lines has pairwise distinct texts, each entry built from
      the first top line with its text at the level of its size (H3 below
      the three largest sizes), and every top line's text has an entry; the
      title is the stripped longest page-1 H1 text of that outline (empty
      without one); a form-like document keeps its title but has an empty
      outline. */
  lemma RankedSpec(data: seq<Line>, kept: seq<Line>, stats: SizeStats,
                   top: seq<Line>, levels: map<real, Level>, outline: seq<RankedEntry>)
    requires AllHaveTop(kept)
    requires top == TopLines(ScoredLines(kept, LineScorer(stats)))
    requires levels == DetermineLevels(top) && outline == Dedup(top, levels)
    requires Ranked(data, kept, stats).Ok?
    ensures forall i, j :: 0 <= i < j < |outline| ==> outline[i].text != outline[j].text
    ensures forall i :: 0 <= i < |outline| ==>
              exists k :: 0 <= k < |top| && FirstWithText(top, k)
                          && outline[i] == RankedEntry(LevelOf(levels, top[k].fontSize), top[k].text, top[k].page, top[k].bbox)
    ensures forall k :: 0 <= k < |top| ==> exists i :: 0 <= i < |outline| && outline[i].text == top[k].text
    ensures var doc := Ranked(data, kept, stats).value;
            && doc.outline == (if IsFormLike(data).value then [] else outline)
            && ((forall e :: e in outline ==> !(e.level == H1 && e.page == 1)) ==> doc.title == "")
            && (forall e :: e in outline && e.level == H1 && e.page == 1 ==>
                  exists t :: t in outline && t.level == H1 && t.page == 1
                              && doc.title == Strip(t.text) && |e.text| <= |t.text|)
  {
    assert Ranked(data, kept, stats) == Assemble(outline, IsFormLike(data));
    AssembleSpec(outline, IsFormLike(data));
    DedupDistinct(top, levels);
    DedupOrigin(top, levels);
    DedupCovers(top, levels);
  }

  // ---------------------------------------------------------------------
  // The loops
  // ---------------------------------------------------------------------

  /** The scoring loop of `rank_headings`, which raises at the first kept
      line without a top edge. */
  method ScoreLines(kept: seq<Line>, score: Line -> real) returns (r: Result<seq<(real, Line)>>)
    ensures r.Raised? <==> !AllHaveTop(kept)
    ensures r.Ok? ==> r.value == ScoredLines(kept, score)
  {
    var scored: seq<(real, Line)> := [];
    var i := 0;
    while i < |kept|
      invariant 0 <= i <= |kept|
      invariant forall j :: 0 <= j < i ==> HasTop(kept[j])
      invariant |scored| == i
      invariant forall j :: 0 <= j < i ==> scored[j] == (score(kept[j]), kept[j])
    {
      if !HasTop(kept[i]) {
        return Raised("IndexError: list index out of range");
      }
      scored := scored + [(score(kept[i]), kept[i])];
      i := i + 1;
    }
    r := Ok(scored);
  }

  /** The outline loop, with the set of texts seen so far. */
  method DedupLoop(top: seq<Line>, levels: map<real, Level>) returns (outline: seq<RankedEntry>)
    ensures outline == Dedup(top, levels)
  {
    outline := [];
    var seen: set<string> := {};
    var i := 0;
    while i < |top|
      invariant 0 <= i <= |top|
      invariant seen == TextsOf(top[..i])
      invariant outline == Dedup(top[..i], levels)
    {
      var line := top[i];
      assert top[..i + 1][..i] == top[..i];
      assert forall l :: l in top[..i + 1] <==> l in top[..i] || l == line;
      if line.text !in seen {
        seen := seen + {line.text};
        outline := outline + [EntryFor(levels, line)];
      }
      i := i + 1;
    }
    assert top[..i] == top;
  }

  /** `rank_headings()` as the source runs it. */
  method RankHeadings(data: seq<Line>, isToc: (seq<Line>, int) -> bool, sqrt: real -> real)
    returns (r: Result<RankedDocument>)
    ensures r == RankHeadingsSpec(data, isToc, sqrt)
    ensures data == [] ==> r == Ok(RankedDocument("", []))
  {
    if data == [] {
      return Ok(RankedDocument("", []));
    }
    var stats := SizeStatsOf(LineSizes(data), sqrt);
    var kept := NonToc(data, isToc);
    var scored := ScoreLines(kept, LineScorer(stats));
    if scored.Raised? {
      return Raised("IndexError: list index out of range");
    }
    var sorted := SortBy(scored.value, ScoreKey);
    var k := if TopK(|sorted|) < |sorted| then TopK(|sorted|) else |sorted|;
    var top := seq(k, i requires 0 <= i < k => sorted[i].1);
    var levels := DetermineLevels(top);
    var outline := DedupLoop(top, levels);
    var title := TitleOf(outline);
    var formLike := IsFormLike(data);
    if formLike.Raised? {
      return Raised(formLike.error);
    }
    if formLike.value {
      return Ok(RankedDocument(Strip(title), []));
    }
    r := Ok(RankedDocument(Strip(title), outline));
  }
}
