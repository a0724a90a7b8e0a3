/** The visual agent: each line's font size relative to the mean font size
    of its page, and whether it stands apart vertically from the lines
    above and below it on its page. */
module Visual {
  import opened Wrappers
  import opened Records
  import opened Sorting
  import opened Clustering

  // ---------------------------------------------------------------------
  // Grouping by page
  // ---------------------------------------------------------------------

  function FontSizeOf(l: Line): real { l.fontSize }

  /** `bbox[1]`, for lines that have it. */
  function TopOf(l: Line): real { if HasTop(l) then l.bbox[1] else 0.0 }

  /** The values of the lines on page `p`, in order. */
  function ValuesOn(data: seq<Line>, p: int, value: Line -> real): (r: seq<real>)
    ensures |r| <= |data|
  {
    if data == [] then []
    else
      var last := data[|data| - 1];
      ValuesOn(data[..|data| - 1], p, value) + (if last.page == p then [value(last)] else [])
  }

  /** `d.setdefault(item["page"], []).append(value(item))` for every line. */
  function GroupByPage(data: seq<Line>, value: Line -> real): (r: map<int, seq<real>>)
    ensures forall p :: p in r ==> |r[p]| > 0
  {
    if data == [] then map[]
    else
      var m := GroupByPage(data[..|data| - 1], value);
      var last := data[|data| - 1];
      m[last.page := (if last.page in m then m[last.page] else []) + [value(last)]]
  }

  /** The groups are keyed by the pages of the lines, and each holds the
      values of the lines on its page, in order. */
  lemma {:induction false} GroupByPageSpec(data: seq<Line>, value: Line -> real)
    ensures forall p :: p in GroupByPage(data, value) <==> HasPage(data, p)
    ensures forall p :: ValuesOn(data, p, value) ==
                        if p in GroupByPage(data, value) then GroupByPage(data, value)[p] else []
  {
    if data != [] {
      var n := |data| - 1;
      var init := data[..n];
      GroupByPageSpec(init, value);
      forall p ensures HasPage(data, p) <==> HasPage(init, p) || data[n].page == p {
        if HasPage(data, p) && data[n].page != p {
          var i :| 0 <= i < |data| && data[i].page == p;
          assert init[i] == data[i];
        }
        if HasPage(init, p) {
          var i :| 0 <= i < |init| && init[i].page == p;
          assert data[i] == init[i];
        }
      }
    }
  }

  /** A page with a line has a value. */
  lemma {:induction false} ValuesOnPresent(data: seq<Line>, i: nat, value: Line -> real)
    requires i < |data|
    ensures value(data[i]) in ValuesOn(data, data[i].page, value)
  {
    var n := |data| - 1;
    if i < n {
      ValuesOnPresent(data[..n], i, value);
      assert data[..n][i] == data[i];
    }
  }

  /** Only line `i` is on its page: its page has its value alone. */
  lemma {:induction false} ValuesOnAlone(data: seq<Line>, i: nat, value: Line -> real)
    requires i < |data|
    requires forall j :: 0 <= j < |data| && j != i ==> data[j].page != data[i].page
    ensures ValuesOn(data, data[i].page, value) == [value(data[i])]
  {
    var n := |data| - 1;
    if i < n {
      ValuesOnAlone(data[..n], i, value);
      assert data[..n][i] == data[i];
    } else {
      ValuesOnAbsent(data[..n], data[i].page, value);
    }
  }

  /** A page without lines has no values. */
  lemma {:induction false} ValuesOnAbsent(data: seq<Line>, p: int, value: Line -> real)
    requires forall j :: 0 <= j < |data| ==> data[j].page != p
    ensures ValuesOn(data, p, value) == []
  {
    if data != [] {
      ValuesOnAbsent(data[..|data| - 1], p, value);
    }
  }

  // ---------------------------------------------------------------------
  // Vertical isolation
  // ---------------------------------------------------------------------

  /** `ys.index(y)`: the first position of `y`. */
  function IndexOf(ys: seq<real>, y: real): (r: nat)
    requires y in ys
    ensures r < |ys| && ys[r] == y && forall j :: 0 <= j < r ==> ys[j] != y
  {
    if ys[0] == y then 0 else 1 + IndexOf(ys[1..], y)
  }

  /** The gap to the previous position, `None` at the first. */
  function PrevGap(ys: seq<real>, i: nat): Option<real>
    requires i < |ys|
  {
    if i > 0 then Some(ys[i] - ys[i - 1]) else None
  }

  /** The gap to the next position, `None` at the last. */
  function NextGap(ys: seq<real>, i: nat): Option<real>
    requires i < |ys|
  {
    if i < |ys| - 1 then Some(ys[i + 1] - ys[i]) else None
  }

  /** `gap and gap > limit`: `None` and a zero gap are kept as they are. */
  function GapFlag(gap: Option<real>, limit: real): PyFlag {
    match gap
    case None => PyNone
    case Some(g) => if g == 0.0 then PyZero else PyBool(g > limit)
  }

  /** `a or b` */
  function PyOr(a: PyFlag, b: PyFlag): PyFlag {
    if a.Truthy() then a else b
  }

  /** `is_isolated` of a line at height `y` with the given font size, among
      the sorted heights `ys` of its page. */
  function IsolationFlag(ys: seq<real>, y: real, fontSize: real): PyFlag
    requires y in ys
  {
    var i := IndexOf(ys, y);
    var limit := fontSize * 1.2;
    PyOr(GapFlag(PrevGap(ys, i), limit), GapFlag(NextGap(ys, i), limit))
  }

  /** A gap that is present, not zero and wider than `limit`. */
  predicate WideGap(gap: Option<real>, limit: real) {
    gap.Some? && gap.value != 0.0 && gap.value > limit
  }

  /** The flag is truthy exactly when the gap above or the gap below is
      wide; with no neighbour at all it is `None`. */
  lemma IsolationFlagSpec(ys: seq<real>, y: real, fontSize: real)
    requires y in ys
    ensures var i := IndexOf(ys, y);
            IsolationFlag(ys, y, fontSize).Truthy() <==>
              WideGap(PrevGap(ys, i), fontSize * 1.2) || WideGap(NextGap(ys, i), fontSize * 1.2)
    ensures |ys| == 1 ==> IsolationFlag(ys, y, fontSize) == PyNone
  {
  }

  predicate Ascending(ys: seq<real>) {
    forall a, b :: 0 <= a <= b < |ys| ==> ys[a] <= ys[b]
  }

  /** Some height lies below `y`, and every height below `y` is more than
      `limit` away. */
  predicate ClearBelow(ys: seq<real>, y: real, limit: real) {
    (exists j :: 0 <= j < |ys| && ys[j] < y)
    && forall j :: 0 <= j < |ys| && ys[j] < y ==> y - ys[j] > limit
  }

  /** Some other position holds a height not below `y`, and every such
      height is more than `limit` away, so that a second line at the same
      height leaves no clear side above. */
  predicate ClearAbove(ys: seq<real>, i: nat, limit: real)
    requires i < |ys|
  {
    (exists j :: 0 <= j < |ys| && j != i && ys[j] >= ys[i])
    && forall j :: 0 <= j < |ys| && j != i && ys[j] >= ys[i] ==> ys[j] - ys[i] > limit
  }

  /** Among sorted heights and for a font size that is not negative, a line
      is isolated exactly when every other line of its page on one side
      (and at least one) is more than 1.2 times the font size away, a line
      at the same height counting on the side above it. */
  lemma IsolatedMeansClear(ys: seq<real>, y: real, fontSize: real)
    requires y in ys && Ascending(ys) && fontSize >= 0.0
    ensures IsolationFlag(ys, y, fontSize).Truthy() <==>
              ClearBelow(ys, y, fontSize * 1.2) || ClearAbove(ys, IndexOf(ys, y), fontSize * 1.2)
  {
    var i := IndexOf(ys, y);
    var limit := fontSize * 1.2;
    IsolationFlagSpec(ys, y, fontSize);
    assert forall j :: 0 <= j < |ys| && ys[j] < y ==> j < i;
    if i > 0 {
      assert ys[i - 1] < y;
      assert WideGap(PrevGap(ys, i), limit) <==> ClearBelow(ys, y, limit) by {
        forall j | 0 <= j < |ys| && ys[j] < y ensures y - ys[j] >= y - ys[i - 1] {
          assert ys[j] <= ys[i - 1];
        }
      }
    } else {
      assert !ClearBelow(ys, y, limit);
    }
    assert forall j :: 0 <= j < |ys| && j != i && ys[j] >= y ==> j > i;
    if i < |ys| - 1 {
      assert WideGap(NextGap(ys, i), limit) <==> ClearAbove(ys, i, limit) by {
        forall j | 0 <= j < |ys| && j != i && ys[j] >= y ensures ys[j] - y >= ys[i + 1] - y {
          assert ys[i + 1] <= ys[j];
        }
        if ys[i + 1] - y == 0.0 {
          assert !ClearAbove(ys, i, limit) by {
            assert ys[i + 1] >= ys[i];
          }
        }
      }
    } else {
      assert !ClearAbove(ys, i, limit);
    }
  }

  // ---------------------------------------------------------------------
  // The annotated lines
  // ---------------------------------------------------------------------

  /** `page_mean`: the mean font size of each page. */
  function PageMeans(orig: seq<Line>): map<int, real> {
    var fonts := GroupByPage(orig, FontSizeOf);
    map p | p in fonts :: Mean(fonts[p])
  }

  /** `page_mean.get(item["page"], item["font_size"])` */
  function MeanFor(means: map<int, real>, l: Line): real {
    if l.page in means then means[l.page] else l.fontSize
  }

  /** The division by the page mean does not raise. */
  function NonZeroMean(means: map<int, real>): Line -> bool {
    l => MeanFor(means, l) != 0.0
  }

  /** A top edge, and the heights of its page, among them its own. */
  predicate Locatable(tops: map<int, seq<real>>, l: Line) {
    HasTop(l) && l.page in tops && l.bbox[1] in tops[l.page]
  }

  /** What one turn of the loop needs to finish: a nonzero mean and a place
      among the heights of its page. */
  predicate CanAnnotate(means: map<int, real>, tops: map<int, seq<real>>, l: Line) {
    MeanFor(means, l) != 0.0 && Locatable(tops, l)
  }

  /** Sorting keeps every height. */
  lemma SortedKeepsMember(s: seq<real>, x: real)
    requires x in s
    ensures x in SortReals(s)
  {
    assert x in multiset(SortReals(s));
  }

  /** One turn of the loop: the line with `font_ratio` and `is_isolated` added. */
  function Annotate(l: Line, means: map<int, real>, tops: map<int, seq<real>>): Line
    requires CanAnnotate(means, tops, l)
  {
    var ys := SortReals(tops[l.page]);
    SortedKeepsMember(tops[l.page], l.bbox[1]);
    l.(fontRatio := Some(l.fontSize / MeanFor(means, l)),
       isIsolated := Some(IsolationFlag(ys, l.bbox[1], l.fontSize)))
  }

  function Annotator(means: map<int, real>, tops: map<int, seq<real>>): Line --> Line {
    l requires CanAnnotate(means, tops, l) => Annotate(l, means, tops)
  }

  /** The lines with the first `k` mapped by `f`, one turn of the loop at a time. */
  function MapPrefix(orig: seq<Line>, k: nat, f: Line --> Line): (r: seq<Line>)
    requires k <= |orig| && forall j :: 0 <= j < k ==> f.requires(orig[j])
    ensures |r| == |orig|
  {
    if k == 0 then orig else MapPrefix(orig, k - 1, f)[k - 1 := f(orig[k - 1])]
  }

  /** The first `k` lines are mapped and the others unchanged. */
  lemma {:induction false} MapPrefixAt(orig: seq<Line>, k: nat, f: Line --> Line, j: nat)
    requires k <= |orig| && j < |orig| && forall j :: 0 <= j < k ==> f.requires(orig[j])
    ensures MapPrefix(orig, k, f)[j] == if j < k then f(orig[j]) else orig[j]
  {
    if k > 0 {
      MapPrefixAt(orig, k - 1, f, j);
    }
  }

  /** The first line from `k` on that `ok` rejects, or `|orig|`. */
  function FirstFailing(orig: seq<Line>, k: nat, ok: Line -> bool): (r: nat)
    requires k <= |orig|
    ensures k <= r <= |orig|
    ensures forall j :: k <= j < r ==> ok(orig[j])
    ensures r < |orig| ==> !ok(orig[r])
    decreases |orig| - k
  {
    if k == |orig| then k
    else if !ok(orig[k]) then k
    else FirstFailing(orig, k + 1, ok)
  }

  /** Every line has a place among the heights of its page. */
  lemma AllLocatable(orig: seq<Line>)
    requires AllHaveTop(orig)
    ensures forall j :: 0 <= j < |orig| ==> Locatable(GroupByPage(orig, TopOf), orig[j])
  {
    GroupByPageSpec(orig, TopOf);
    forall j | 0 <= j < |orig| ensures Locatable(GroupByPage(orig, TopOf), orig[j]) {
      assert HasTop(orig[j]);
      assert HasPage(orig, orig[j].page);
      ValuesOnPresent(orig, j, TopOf);
    }
  }

  /** Every line before the first one whose page mean is zero can be annotated. */
  lemma Annotatable(orig: seq<Line>)
    requires AllHaveTop(orig)
    ensures forall j :: 0 <= j < FirstFailing(orig, 0, NonZeroMean(PageMeans(orig))) ==>
              CanAnnotate(PageMeans(orig), GroupByPage(orig, TopOf), orig[j])
  {
    AllLocatable(orig);
  }

  /** The lines after `analyze_visual()`: unchanged when a line has no top
      edge; otherwise annotated up to the first line whose page has mean
      font size zero (where the division raises), or all of them. */
  function AnalyzedData(orig: seq<Line>): (r: seq<Line>)
    ensures |r| == |orig|
  {
    if !AllHaveTop(orig) then orig
    else
      Annotatable(orig);
      var means := PageMeans(orig);
      MapPrefix(orig, FirstFailing(orig, 0, NonZeroMean(means)), Annotator(means, GroupByPage(orig, TopOf)))
  }

  /** What `analyze_visual()` returns or raises. */
  function AnalyzeOutcome(orig: seq<Line>): Result<seq<Line>> {
    if !AllHaveTop(orig) then Raised("IndexError: list index out of range")
    else if FirstFailing(orig, 0, NonZeroMean(PageMeans(orig))) < |orig| then
      Raised("ZeroDivisionError: float division by zero")
    else Ok(AnalyzedData(orig))
  }

  // ---------------------------------------------------------------------
  // What the annotation promises
  // ---------------------------------------------------------------------

  /** `a` is `b` with at most the visual keys changed. */
  predicate SameExceptVisual(a: Line, b: Line) {
    a == b.(fontRatio := a.fontRatio, isIsolated := a.isIsolated)
  }

  /** The lines keep their number and order, and only `font_ratio` and
      `is_isolated` change; when nothing raises, every line gets both. */
  lemma AnalyzeKeepsLines(orig: seq<Line>)
    ensures |AnalyzedData(orig)| == |orig|
    ensures forall j :: 0 <= j < |orig| ==> SameExceptVisual(AnalyzedData(orig)[j], orig[j])
    ensures AnalyzeOutcome(orig).Ok? ==>
              AnalyzeOutcome(orig).value == AnalyzedData(orig)
              && forall j :: 0 <= j < |orig| ==>
                   AnalyzedData(orig)[j].fontRatio.Some? && AnalyzedData(orig)[j].isIsolated.Some?
  {
    if AllHaveTop(orig) {
      Annotatable(orig);
      var means := PageMeans(orig);
      var f := Annotator(means, GroupByPage(orig, TopOf));
      var z := FirstFailing(orig, 0, NonZeroMean(means));
      forall j | 0 <= j < |orig|
        ensures SameExceptVisual(AnalyzedData(orig)[j], orig[j])
        ensures j < z ==> AnalyzedData(orig)[j].fontRatio.Some? && AnalyzedData(orig)[j].isIsolated.Some?
      {
        MapPrefixAt(orig, z, f, j);
      }
    }
  }

  /** `mean(sizes)` of the font sizes of page `p`. */
  function PageMean(orig: seq<Line>, p: int): real
    requires HasPage(orig, p)
  {
    var i :| 0 <= i < |orig| && orig[i].page == p;
    ValuesOnPresent(orig, i, FontSizeOf);
    Mean(ValuesOn(orig, p, FontSizeOf))
  }

  /** The sorted heights of the lines of page `p`. */
  function SortedTops(orig: seq<Line>, p: int): seq<real> {
    SortReals(ValuesOn(orig, p, TopOf))
  }

  /** When nothing raises, line `i` is annotated with its font size over the
      mean of its page and the isolation flag of its height among the
      sorted heights of its page. */
  lemma OkAnnotated(orig: seq<Line>, i: nat)
    requires AnalyzeOutcome(orig).Ok? && i < |orig|
    ensures AllHaveTop(orig) && HasPage(orig, orig[i].page) && PageMean(orig, orig[i].page) != 0.0
    ensures orig[i].bbox[1] in SortedTops(orig, orig[i].page)
    ensures AnalyzedData(orig)[i] ==
              orig[i].(fontRatio := Some(orig[i].fontSize / PageMean(orig, orig[i].page)),
                       isIsolated := Some(IsolationFlag(SortedTops(orig, orig[i].page), orig[i].bbox[1], orig[i].fontSize)))
  {
    var means := PageMeans(orig);
    var tops := GroupByPage(orig, TopOf);
    var p := orig[i].page;
    assert AllHaveTop(orig) && FirstFailing(orig, 0, NonZeroMean(means)) == |orig|;
    AnnotatedAt(orig, i);
    GroupByPageSpec(orig, FontSizeOf);
    GroupByPageSpec(orig, TopOf);
    assert HasPage(orig, p);
    assert MeanFor(means, orig[i]) == PageMean(orig, p);
    assert SortReals(tops[p]) == SortedTops(orig, p);
  }

  /** When nothing raises, line `i` is `Annotate` of the original line. */
  lemma AnnotatedAt(orig: seq<Line>, i: nat)
    requires AllHaveTop(orig) && FirstFailing(orig, 0, NonZeroMean(PageMeans(orig))) == |orig|
    requires i < |orig|
    ensures CanAnnotate(PageMeans(orig), GroupByPage(orig, TopOf), orig[i])
    ensures AnalyzedData(orig)[i] == Annotate(orig[i], PageMeans(orig), GroupByPage(orig, TopOf))
  {
    var means := PageMeans(orig);
    var f := Annotator(means, GroupByPage(orig, TopOf));
    Annotatable(orig);
    MapPrefixAt(orig, |orig|, f, i);
  }

  /** When nothing raises, each line's ratio is its font size over the mean
      font size of its page. */
  lemma FontRatioSpec(orig: seq<Line>, i: nat)
    requires AnalyzeOutcome(orig).Ok? && i < |orig|
    ensures HasPage(orig, orig[i].page)
    ensures PageMean(orig, orig[i].page) != 0.0
    ensures AnalyzedData(orig)[i].fontRatio == Some(orig[i].fontSize / PageMean(orig, orig[i].page))
  {
    OkAnnotated(orig, i);
  }

  /** When nothing raises, a line alone on its page is not isolated: it has
      no gap on either side. */
  lemma AloneNotIsolated(orig: seq<Line>, i: nat)
    requires AnalyzeOutcome(orig).Ok? && i < |orig|
    requires forall j :: 0 <= j < |orig| && j != i ==> orig[j].page != orig[i].page
    ensures AnalyzedData(orig)[i].isIsolated == Some(PyNone)
  {
    OkAnnotated(orig, i);
    ValuesOnAlone(orig, i, TopOf);
    assert SortedTops(orig, orig[i].page) == [orig[i].bbox[1]];
    IsolationFlagSpec(SortedTops(orig, orig[i].page), orig[i].bbox[1], orig[i].fontSize);
  }

  /** When nothing raises and the font size is not negative, a line is
      isolated exactly when the lines of its page on one side are all more
      than 1.2 times its font size away. */
  lemma IsolatedSpec(orig: seq<Line>, i: nat)
    requires AnalyzeOutcome(orig).Ok? && i < |orig| && orig[i].fontSize >= 0.0
    ensures var ys := SortedTops(orig, orig[i].page);
            var y := orig[i].bbox[1];
            y in ys && AnalyzedData(orig)[i].isIsolated.Some?
            && (AnalyzedData(orig)[i].isIsolated.value.Truthy() <==>
                  ClearBelow(ys, y, orig[i].fontSize * 1.2) || ClearAbove(ys, IndexOf(ys, y), orig[i].fontSize * 1.2))
  {
    OkAnnotated(orig, i);
    SortedTopsAscending(orig, orig[i].page);
    IsolatedMeansClear(SortedTops(orig, orig[i].page), orig[i].bbox[1], orig[i].fontSize);
  }

  lemma SortedTopsAscending(orig: seq<Line>, p: int)
    ensures Ascending(SortedTops(orig, p))
  {
    var ys := SortedTops(orig, p);
    forall a, b | 0 <= a <= b < |ys| ensures ys[a] <= ys[b] {
      SortRealsAscending(ValuesOn(orig, p, TopOf), a, b);
    }
  }

  /** `x / m` for every `x` of `s`. */
  function Scaled(s: seq<real>, m: real): (r: seq<real>)
    requires m != 0.0
    ensures |r| == |s|
  {
    if s == [] then [] else Scaled(s[..|s| - 1], m) + [s[|s| - 1] / m]
  }

  lemma {:induction false} SumScaled(s: seq<real>, m: real)
    requires m != 0.0
    ensures Sum(Scaled(s, m)) == Sum(s) / m
  {
    if s != [] {
      var n := |s| - 1;
      SumScaled(s[..n], m);
      assert Scaled(s, m)[..n] == Scaled(s[..n], m);
    }
  }

  function RatioOf(l: Line): real { l.fontRatio.GetOr(0.0) }

  /** The ratios of the lines of page `p` are their font sizes over `m`. */
  lemma {:induction false} RatiosOnPage(orig: seq<Line>, data: seq<Line>, p: int, m: real)
    requires |data| == |orig| && m != 0.0
    requires forall j :: 0 <= j < |orig| ==> data[j].page == orig[j].page
    requires forall j :: 0 <= j < |orig| && orig[j].page == p ==> data[j].fontRatio == Some(orig[j].fontSize / m)
    ensures ValuesOn(data, p, RatioOf) == Scaled(ValuesOn(orig, p, FontSizeOf), m)
  {
    if orig != [] {
      var n := |orig| - 1;
      RatiosOnPage(orig[..n], data[..n], p, m);
      var sizes := ValuesOn(orig[..n], p, FontSizeOf);
      if orig[n].page == p {
        assert ValuesOn(orig, p, FontSizeOf) == sizes + [orig[n].fontSize];
        assert (sizes + [orig[n].fontSize])[..|sizes|] == sizes;
        assert ValuesOn(data, p, RatioOf) == ValuesOn(data[..n], p, RatioOf) + [orig[n].fontSize / m];
      } else {
        assert ValuesOn(orig, p, FontSizeOf) == sizes;
        assert ValuesOn(data, p, RatioOf) == ValuesOn(data[..n], p, RatioOf);
      }
    }
  }

  /** Dividing by the mean gives values whose mean is one. */
  lemma ScaledMeanIsOne(sizes: seq<real>, m: real)
    requires |sizes| > 0 && m == Mean(sizes) && m != 0.0
    ensures Mean(Scaled(sizes, m)) == 1.0
  {
    SumScaled(sizes, m);
    QuotientByMean(Sum(sizes), |sizes| as real, m);
  }

  lemma QuotientByMean(total: real, n: real, m: real)
    requires n > 0.0 && m == total / n && m != 0.0
    ensures (total / m) / n == 1.0
  {
    assert m * n == total;
    assert total / m == n;
  }

  /** When nothing raises, the ratios of the lines of a page average to one. */
  lemma RatiosAverageOne(orig: seq<Line>, p: int)
    requires AnalyzeOutcome(orig).Ok? && HasPage(orig, p)
    ensures |ValuesOn(AnalyzedData(orig), p, RatioOf)| > 0
    ensures Mean(ValuesOn(AnalyzedData(orig), p, RatioOf)) == 1.0
  {
    var data := AnalyzedData(orig);
    var i :| 0 <= i < |orig| && orig[i].page == p;
    var m := PageMean(orig, p);
    var sizes := ValuesOn(orig, p, FontSizeOf);
    ValuesOnPresent(orig, i, FontSizeOf);
    OkAnnotated(orig, i);
    forall j | 0 <= j < |orig| && orig[j].page == p ensures data[j].fontRatio == Some(orig[j].fontSize / m) {
      OkAnnotated(orig, j);
    }
    AnalyzeKeepsLines(orig);
    RatiosOnPage(orig, data, p, m);
    ScaledMeanIsOne(sizes, m);
  }

  // ---------------------------------------------------------------------
  // The loops
  // ---------------------------------------------------------------------

  /** The `setdefault` loop over the font sizes. */
  method GroupValues(data: seq<Line>, value: Line -> real) returns (m: map<int, seq<real>>)
    ensures m == GroupByPage(data, value)
  {
    m := map[];
    var i := 0;
    while i < |data|
      invariant 0 <= i <= |data|
      invariant m == GroupByPage(data[..i], value)
    {
      var p := data[i].page;
      m := m[p := (if p in m then m[p] else []) + [value(data[i])]];
      assert data[..i + 1][..i] == data[..i];
      i := i + 1;
    }
    assert data[..i] == data;
  }

  /** The `setdefault` loop over the heights, which raises at the first
      line without a top edge. */
  method GroupTops(data: seq<Line>) returns (r: Result<map<int, seq<real>>>)
    ensures r.Raised? <==> !AllHaveTop(data)
    ensures r.Raised? ==> r.error == "IndexError: list index out of range"
    ensures r.Ok? ==> r.value == GroupByPage(data, TopOf)
  {
    var m := map[];
    var i := 0;
    while i < |data|
      invariant 0 <= i <= |data|
      invariant AllHaveTop(data[..i])
      invariant m == GroupByPage(data[..i], TopOf)
    {
      var p := data[i].page;
      if |data[i].bbox| < 2 {
        return Raised("IndexError: list index out of range");
      }
      m := m[p := (if p in m then m[p] else []) + [data[i].bbox[1]]];
      assert data[..i + 1][..i] == data[..i];
      i := i + 1;
    }
    assert data[..i] == data;
    return Ok(m);
  }

  /** The isolation test of one line among the sorted heights `yList` of
      its page. */
  method Isolation(yList: seq<real>, y: real, fontSize: real) returns (isolated: PyFlag)
    requires y in yList
    ensures isolated == IsolationFlag(yList, y, fontSize)
  {
    var idx := IndexOf(yList, y);
    var prevGap := if idx > 0 then Some(y - yList[idx - 1]) else None;
    var nextGap := if idx < |yList| - 1 then Some(yList[idx + 1] - y) else None;
    var limit := fontSize * 1.2;
    isolated := PyOr(GapFlag(prevGap, limit), GapFlag(nextGap, limit));
    assert prevGap == PrevGap(yList, idx) && nextGap == NextGap(yList, idx);
  }

  /** One turn of the loop: raises when the page mean is zero, and gives
      the annotated line otherwise. */
  method AnnotateLine(item: Line, pageMean: map<int, real>, yPositions: map<int, seq<real>>)
    returns (r: Result<Line>)
    requires Locatable(yPositions, item)
    ensures MeanFor(pageMean, item) == 0.0 ==> r == Raised("ZeroDivisionError: float division by zero")
    ensures MeanFor(pageMean, item) != 0.0 ==> r == Ok(Annotate(item, pageMean, yPositions))
  {
    var p := item.page;
    var mean := if p in pageMean then pageMean[p] else item.fontSize;
    if mean == 0.0 {
      return Raised("ZeroDivisionError: float division by zero");
    }
    var ratio := item.fontSize / mean;
    var yList := SortReals(yPositions[p]);
    SortedKeepsMember(yPositions[p], item.bbox[1]);
    var isolated := Isolation(yList, item.bbox[1], item.fontSize);
    return Ok(item.(fontRatio := Some(ratio), isIsolated := Some(isolated)));
  }

  /** `VisualAnalysisAgent(structure_data)` */
  class VisualAnalysisAgent {
    var data: seq<Line>

    constructor(structureData: seq<Line>)
      ensures data == structureData
    {
      data := structureData;
    }

    /** `analyze_visual()`: annotates the lines in place and returns them. */
    method AnalyzeVisual() returns (r: Result<seq<Line>>)
      modifies this
      ensures data == AnalyzedData(old(data))
      ensures r == AnalyzeOutcome(old(data))
    {
      var orig := data;
      var pageFonts := GroupValues(orig, FontSizeOf);
      var pageMean := map p | p in pageFonts :: Mean(pageFonts[p]);
      assert pageMean == PageMeans(orig);
      var yPositions := GroupTops(orig);
      if yPositions.Raised? {
        return Raised(yPositions.error);
      }
      assert yPositions.value == GroupByPage(orig, TopOf);
      AllLocatable(orig);
      r := AnnotateLines(orig, pageMean, yPositions.value);
    }

    /** The loop of `analyze_visual()`: annotates the lines one at a time
        and stops at the first whose page has mean font size zero. */
    method AnnotateLines(ghost orig: seq<Line>, pageMean: map<int, real>, yPositions: map<int, seq<real>>)
      returns (r: Result<seq<Line>>)
      modifies this
      requires data == orig
      requires forall j :: 0 <= j < |orig| ==> Locatable(yPositions, orig[j])
      ensures forall j :: 0 <= j < FirstFailing(orig, 0, NonZeroMean(pageMean)) ==>
                CanAnnotate(pageMean, yPositions, orig[j])
      ensures data == MapPrefix(orig, FirstFailing(orig, 0, NonZeroMean(pageMean)), Annotator(pageMean, yPositions))
      ensures r == if FirstFailing(orig, 0, NonZeroMean(pageMean)) < |orig|
                   then Raised("ZeroDivisionError: float division by zero") else Ok(data)
    {
      ghost var f := Annotator(pageMean, yPositions);
      ghost var z := FirstFailing(orig, 0, NonZeroMean(pageMean));
      var k := 0;
      while k < |data|
        invariant |data| == |orig|
        invariant 0 <= k <= z
        invariant forall j :: 0 <= j < k ==> f.requires(orig[j])
        invariant data == MapPrefix(orig, k, f)
      {
        MapPrefixAt(orig, k, f, k);
        var next := AnnotateLine(data[k], pageMean, yPositions);
        if next.Raised? {
          assert z == k;
          return Raised(next.error);
        }
        assert f.requires(orig[k]) && f(orig[k]) == next.value;
        data := data[k := next.value];
        k := k + 1;
      }
      r := Ok(data);
    }
  }
}
