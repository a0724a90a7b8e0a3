/** The layout statistics the title classifier precomputes over its headings:
    the percentile rank of each font size, the indent level of each left
    edge, the quartiles of the widths and each heading's place on its page. */
module LayoutStats {
  import opened Sorting
  import opened Records

  // ---------------------------------------------------------------------
  // Smallest and largest value
  // ---------------------------------------------------------------------

  function MinOf(s: seq<real>): (m: real)
    requires |s| > 0
    ensures m in s && forall i :: 0 <= i < |s| ==> m <= s[i]
  {
    if |s| == 1 then s[0]
    else
      var m := MinOf(s[1..]);
      assert forall i :: 1 <= i < |s| ==> s[i] == s[1..][i - 1];
      if s[0] <= m then s[0] else m
  }

  function MaxOf(s: seq<real>): (m: real)
    requires |s| > 0
    ensures m in s && forall i :: 0 <= i < |s| ==> s[i] <= m
  {
    if |s| == 1 then s[0]
    else
      var m := MaxOf(s[1..]);
      assert forall i :: 1 <= i < |s| ==> s[i] == s[1..][i - 1];
      if s[0] >= m then s[0] else m
  }

  function Abs(x: real): real { if x < 0.0 then -x else x }

  /** `math.isclose(a, b, rel_tol=1e-9)` */
  predicate IsClose(a: real, b: real) {
    Abs(a - b) <= 0.000000001 * (if Abs(a) >= Abs(b) then Abs(a) else Abs(b))
  }

  // ---------------------------------------------------------------------
  // Percentile normalisation of font sizes
  // ---------------------------------------------------------------------

  /** `sum(1 for x in xs if x <= v)` */
  function CountAtMost(xs: seq<real>, v: real): (n: nat)
    ensures n <= |xs|
  {
    if xs == [] then 0 else CountAtMost(xs[..|xs| - 1], v) + (if xs[|xs| - 1] <= v then 1 else 0)
  }

  /** `_normalize_with_distribution_awareness(values)`: every value maps to the
      share of values not above it (counting over the sorted copy counts the
      same values), or to 1.0 when there is at most one value or all are
      close. */
  function NormalizeSizes(values: seq<real>): (m: map<real, real>)
    ensures m.Keys == set v | v in values
  {
    map v | v in values :: NormalizedValue(values, v)
  }

  /** The value `v` maps to. */
  function NormalizedValue(values: seq<real>, v: real): real {
    if |values| <= 1 then 1.0
    else if IsClose(MinOf(values), MaxOf(values)) then 1.0
    else (CountAtMost(values, v) as real) / (|values| as real)
  }

  lemma {:induction false} CountAtMostMonotone(xs: seq<real>, v: real, w: real)
    requires v <= w
    ensures CountAtMost(xs, v) <= CountAtMost(xs, w)
    decreases |xs|
  {
    if xs != [] {
      CountAtMostMonotone(xs[..|xs| - 1], v, w);
    }
  }

  lemma {:induction false} CountAtMostAll(xs: seq<real>, v: real)
    requires forall i :: 0 <= i < |xs| ==> xs[i] <= v
    ensures CountAtMost(xs, v) == |xs|
    decreases |xs|
  {
    if xs != [] {
      CountAtMostAll(xs[..|xs| - 1], v);
    }
  }

  lemma {:induction false} CountAtMostPositive(xs: seq<real>, v: real)
    requires v in xs
    ensures CountAtMost(xs, v) >= 1
    decreases |xs|
  {
    if xs[|xs| - 1] != v {
      assert v in xs[..|xs| - 1] by {
        var i :| 0 <= i < |xs| && xs[i] == v;
        assert xs[..|xs| - 1][i] == v;
      }
      CountAtMostPositive(xs[..|xs| - 1], v);
    }
  }

  /** Every normalised size is a share in (0, 1]. */
  lemma NormalizedShare(values: seq<real>, v: real)
    requires v in values
    ensures v in NormalizeSizes(values) && 0.0 < NormalizeSizes(values)[v] <= 1.0
  {
    if |values| > 1 && !IsClose(MinOf(values), MaxOf(values)) {
      CountAtMostPositive(values, v);
      ShareBounds(CountAtMost(values, v), |values|);
    }
  }

  lemma ShareBounds(c: nat, n: nat)
    requires 1 <= c <= n
    ensures 0.0 < (c as real) / (n as real) <= 1.0
  {
  }

  lemma ShareFull(n: nat)
    requires n > 0
    ensures (n as real) / (n as real) == 1.0
  {
  }

  lemma ShareMonotone(c: nat, d: nat, n: nat)
    requires c <= d && n > 0
    ensures (c as real) / (n as real) <= (d as real) / (n as real)
  {
  }

  /** A larger font size never gets a smaller normalised size. */
  lemma NormalizedMonotone(values: seq<real>, v: real, w: real)
    requires v in values && w in values && v <= w
    ensures v in NormalizeSizes(values) && w in NormalizeSizes(values)
    ensures NormalizeSizes(values)[v] <= NormalizeSizes(values)[w]
  {
    if |values| > 1 && !IsClose(MinOf(values), MaxOf(values)) {
      CountAtMostMonotone(values, v, w);
      ShareMonotone(CountAtMost(values, v), CountAtMost(values, w), |values|);
    }
  }

  /** The largest font size normalises to 1. */
  lemma NormalizedLargestIsOne(values: seq<real>)
    requires values != []
    ensures MaxOf(values) in NormalizeSizes(values) && NormalizeSizes(values)[MaxOf(values)] == 1.0
  {
    var m := MaxOf(values);
    if |values| > 1 && !IsClose(MinOf(values), m) {
      CountAtMostAll(values, m);
      ShareFull(|values|);
      assert NormalizedValue(values, m) == 1.0;
    } else {
      assert NormalizedValue(values, m) == 1.0;
    }
    assert NormalizeSizes(values)[m] == NormalizedValue(values, m);
  }

  lemma {:induction false} CountAtMostConcat(a: seq<real>, b: seq<real>, v: real)
    ensures CountAtMost(a + b, v) == CountAtMost(a, v) + CountAtMost(b, v)
    decreases |b|
  {
    if b == [] {
      assert a + b == a;
    } else {
      var init := b[..|b| - 1];
      assert (a + b)[..|a + b| - 1] == a + init;
      CountAtMostConcat(a, init, v);
    }
  }

  /** The count does not depend on the order of the values. */
  lemma {:induction false} CountAtMostPerm(a: seq<real>, b: seq<real>, v: real)
    requires multiset(a) == multiset(b)
    ensures CountAtMost(a, v) == CountAtMost(b, v)
    decreases |b|
  {
    if b == [] {
      assert a == [];
    } else {
      var x := b[|b| - 1];
      var init := b[..|b| - 1];
      assert b == init + [x];
      assert x in multiset(a);
      var k :| 0 <= k < |a| && a[k] == x;
      var rest := a[..k] + a[k + 1..];
      assert a == a[..k] + [x] + a[k + 1..];
      assert multiset(rest) == multiset(a) - multiset{x};
      assert multiset(init) == multiset(b) - multiset{x};
      CountAtMostPerm(rest, init, v);
      CountAtMostConcat(a[..k] + [x], a[k + 1..], v);
      CountAtMostConcat(a[..k], [x], v);
      CountAtMostConcat(a[..k], a[k + 1..], v);
    }
  }

  /** `sum(1 for x in xs if x <= v)` */
  method PercentileRank(xs: seq<real>, v: real) returns (rank: nat)
    ensures rank == CountAtMost(xs, v)
  {
    rank := 0;
    var j := 0;
    while j < |xs|
      invariant j <= |xs|
      invariant rank == CountAtMost(xs[..j], v)
    {
      assert xs[..j + 1][..j] == xs[..j];
      if xs[j] <= v {
        rank := rank + 1;
      }
      j := j + 1;
    }
    assert xs[..j] == xs;
  }

  /** `_normalize_with_distribution_awareness(values)` as the source runs it:
      each value's rank is counted over the sorted copy. The loop visits the
      values in list order where the source visits `set(values)`; every
      visit of one value stores the same share, so the map is the same. */
  method NormalizeWithDistribution(values: seq<real>) returns (m: map<real, real>)
    ensures m == NormalizeSizes(values)
  {
    if |values| <= 1 || IsClose(MinOf(values), MaxOf(values)) {
      return map v | v in values :: 1.0;
    }
    var sorted := SortReals(values);
    var n := |sorted|;
    m := map[];
    var i := 0;
    while i < |values|
      invariant i <= |values|
      invariant m == map v | v in values[..i] :: NormalizedValue(values, v)
    {
      var v := values[i];
      var rank := PercentileRank(sorted, v);
      CountAtMostPerm(sorted, values, v);
      m := m[v := (rank as real) / (n as real)];
      assert values[..i + 1] == values[..i] + [v];
      i := i + 1;
    }
    assert values[..i] == values;
  }

  // ---------------------------------------------------------------------
  // Indent levels of left edges
  // ---------------------------------------------------------------------

  /** The gaps between consecutive distinct left edges. */
  function EdgeGaps(u: seq<real>): (g: seq<real>)
    requires |u| >= 1
    ensures |g| == |u| - 1
  {
    seq(|u| - 1, i requires 0 <= i < |u| - 1 => u[i + 1] - u[i])
  }

  /** The number of gaps above `threshold` among the first `i` of them: the
      source's running `current_level` after edge `u[i]`. */
  function StepsUpTo(u: seq<real>, threshold: real, i: nat): (c: nat)
    requires i < |u|
    ensures c <= i
  {
    if i == 0 then 0
    else StepsUpTo(u, threshold, i - 1) + (if u[i] - u[i - 1] > threshold then 1 else 0)
  }

  function Cap3(c: int): int { if c < 3 then c else 3 }

  /** The level of edge `u[i]`: its running count, capped at 3. */
  function EdgeLevel(u: seq<real>, threshold: real, i: nat): int
    requires i < |u|
  {
    Cap3(StepsUpTo(u, threshold, i))
  }

  /** The median gap times 1.5, or 0 with fewer than two edges (no gap is then
      ever compared with it). */
  function EdgeThreshold(u: seq<real>): real
    requires |u| >= 1
  {
    if |u| <= 1 then 0.0 else Median(EdgeGaps(u)) * 1.5
  }

  /** The dictionary after recording the first `i` edges. */
  function IndentMapUpTo(u: seq<real>, threshold: real, i: nat): map<real, int>
    requires i <= |u|
  {
    if i == 0 then map[] else IndentMapUpTo(u, threshold, i - 1)[u[i - 1] := EdgeLevel(u, threshold, i - 1)]
  }

  /** `_calculate_indent_levels(x_positions)` */
  function IndentLevels(xs: seq<real>): map<real, int> {
    var u := DistinctAsc(xs);
    if |u| == 0 then map[] else IndentMapUpTo(u, EdgeThreshold(u), |u|)
  }

  lemma {:induction false} IndentMapUpToAt(u: seq<real>, threshold: real, i: nat, j: nat)
    requires StrictlyIncreasing(u) && j < i <= |u|
    ensures u[j] in IndentMapUpTo(u, threshold, i)
    ensures IndentMapUpTo(u, threshold, i)[u[j]] == EdgeLevel(u, threshold, j)
    decreases i
  {
    if j < i - 1 {
      IndentMapUpToAt(u, threshold, i - 1, j);
      assert u[j] < u[i - 1];
    }
  }

  lemma {:induction false} IndentMapUpToKeys(u: seq<real>, threshold: real, i: nat, x: real)
    requires i <= |u| && x in IndentMapUpTo(u, threshold, i)
    ensures exists j :: 0 <= j < i && u[j] == x
    decreases i
  {
    if x != u[i - 1] {
      IndentMapUpToKeys(u, threshold, i - 1, x);
    }
  }

  /** Edge `u[i]` gets its capped running count. */
  lemma IndentLevelAt(xs: seq<real>, i: nat)
    requires i < |DistinctAsc(xs)|
    ensures var u := DistinctAsc(xs);
            u[i] in IndentLevels(xs) && IndentLevels(xs)[u[i]] == EdgeLevel(u, EdgeThreshold(u), i)
  {
    var u := DistinctAsc(xs);
    IndentMapUpToAt(u, EdgeThreshold(u), |u|, i);
  }

  /** Exactly the left edges get a level. */
  lemma IndentLevelsKeys(xs: seq<real>, x: real)
    ensures x in IndentLevels(xs) <==> x in xs
  {
    var u := DistinctAsc(xs);
    if x in xs {
      assert x in u;
      var i :| 0 <= i < |u| && u[i] == x;
      IndentLevelAt(xs, i);
    }
    if x in IndentLevels(xs) {
      IndentMapUpToKeys(u, EdgeThreshold(u), |u|, x);
    }
  }

  lemma {:induction false} StepsMonotone(u: seq<real>, threshold: real, i: nat, j: nat)
    requires i <= j < |u|
    ensures StepsUpTo(u, threshold, i) <= StepsUpTo(u, threshold, j)
    decreases j
  {
    if i < j {
      StepsMonotone(u, threshold, i, j - 1);
    }
  }

  /** The smallest left edge is at level 0. */
  lemma IndentSmallestIsZero(xs: seq<real>)
    requires xs != []
    ensures var u := DistinctAsc(xs);
            u != [] && u[0] in IndentLevels(xs) && IndentLevels(xs)[u[0]] == 0
  {
    assert xs[0] in DistinctAsc(xs);
    IndentLevelAt(xs, 0);
  }

  /** Levels stay within 0..3. */
  lemma IndentLevelBounded(xs: seq<real>, x: real)
    requires x in xs
    ensures x in IndentLevels(xs) && 0 <= IndentLevels(xs)[x] <= 3
  {
    var u := DistinctAsc(xs);
    assert x in u;
    var i :| 0 <= i < |u| && u[i] == x;
    IndentLevelAt(xs, i);
  }

  /** A further-right edge never gets a smaller level. */
  lemma IndentLevelsMonotone(xs: seq<real>, i: nat, j: nat)
    requires i <= j < |DistinctAsc(xs)|
    ensures var u := DistinctAsc(xs);
            u[i] in IndentLevels(xs) && u[j] in IndentLevels(xs) &&
            IndentLevels(xs)[u[i]] <= IndentLevels(xs)[u[j]]
  {
    var u := DistinctAsc(xs);
    IndentLevelAt(xs, i);
    IndentLevelAt(xs, j);
    StepsMonotone(u, EdgeThreshold(u), i, j);
  }

  /** Neighbouring edges differ by at most one level. */
  lemma IndentLevelStep(xs: seq<real>, i: nat)
    requires i + 1 < |DistinctAsc(xs)|
    ensures var u := DistinctAsc(xs);
            u[i] in IndentLevels(xs) && u[i + 1] in IndentLevels(xs) &&
            IndentLevels(xs)[u[i + 1]] - IndentLevels(xs)[u[i]] in {0, 1}
  {
    IndentLevelAt(xs, i);
    IndentLevelAt(xs, i + 1);
  }

  /** `_calculate_indent_levels`: the loop over the distinct edges in
      ascending order, counting the large gaps and recording the capped
      count for each edge. */
  method CalculateIndentLevels(xPositions: seq<real>) returns (levels: map<real, int>)
    ensures levels == IndentLevels(xPositions)
  {
    var u := DistinctAsc(xPositions);
    if |u| == 0 {
      return map[];
    }
    var threshold := EdgeThreshold(u);
    var currentLevel := 0;
    levels := map[u[0] := currentLevel];
    var i := 1;
    while i < |u|
      invariant 1 <= i <= |u|
      invariant currentLevel == StepsUpTo(u, threshold, i - 1)
      invariant levels == IndentMapUpTo(u, threshold, i)
    {
      if u[i] - u[i - 1] > threshold {
        currentLevel := currentLevel + 1;
      }
      levels := levels[u[i] := Cap3(currentLevel)];
      i := i + 1;
    }
  }

  // ---------------------------------------------------------------------
  // Width quartiles
  // ---------------------------------------------------------------------

  /** `{'p25', 'p50', 'p75', 'p90'}` */
  datatype Percentiles = Percentiles(p25: real, p50: real, p75: real, p90: real)

  /** `_calculate_width_percentiles(widths)`: the sorted width at index
      `int(k·n)`, which for these factors is `k·n` rounded down. */
  function WidthPercentiles(widths: seq<real>): Percentiles {
    if widths == [] then Percentiles(0.0, 0.0, 0.0, 0.0)
    else
      var s := SortReals(widths);
      var n := |s|;
      Percentiles(s[n * 25 / 100], s[n * 50 / 100], s[n * 75 / 100], s[n * 90 / 100])
  }

  /** The quartiles are ordered and each is one of the widths (or 0 without
      widths). */
  lemma WidthPercentilesOrdered(widths: seq<real>)
    ensures var p := WidthPercentiles(widths);
            && p.p25 <= p.p50 <= p.p75 <= p.p90
            && (widths != [] ==> p.p25 in widths && p.p50 in widths && p.p75 in widths && p.p90 in widths)
  {
    if widths != [] {
      var n := |widths|;
      SortRealsAscending(widths, n * 25 / 100, n * 50 / 100);
      SortRealsAscending(widths, n * 50 / 100, n * 75 / 100);
      SortRealsAscending(widths, n * 75 / 100, n * 90 / 100);
      SortRealsMember(widths, n * 25 / 100);
      SortRealsMember(widths, n * 50 / 100);
      SortRealsMember(widths, n * 75 / 100);
      SortRealsMember(widths, n * 90 / 100);
    }
  }

  // ---------------------------------------------------------------------
  // Place on the page
  // ---------------------------------------------------------------------

  /** `{'relative_position', 'is_top_of_page', 'is_first_on_page'}` */
  datatype PositionInfo = PositionInfo(relativePosition: real, isTopOfPage: bool, isFirstOnPage: bool)

  /** The headings on page `page`, in order. */
  function OnPage(data: seq<Fragment>, page: int): (r: seq<Fragment>)
    ensures forall h :: h in r <==> h in data && h.page == page
  {
    if data == [] then []
    else (if data[0].page == page then [data[0]] else []) + OnPage(data[1..], page)
  }

  /** The positive top edges of `hs`. */
  function PositiveTops(hs: seq<Fragment>): (r: seq<real>)
    ensures forall y :: y in r <==> y > 0.0 && exists h :: h in hs && Y0(h) == y
  {
    if hs == [] then []
    else (if Y0(hs[0]) > 0.0 then [Y0(hs[0])] else []) + PositiveTops(hs[1..])
  }

  /** The entry of `_analyze_position_context` for `data[i]`: its top edge
      placed between the highest and lowest positive top edges of its page
      (0.5 without a spread), and whether no heading of its page is higher. */
  function PositionOf(data: seq<Fragment>, i: nat): PositionInfo
    requires i < |data|
  {
    var h := data[i];
    var same := OnPage(data, h.page);
    var ys := PositiveTops(same);
    var rel :=
      if ys == [] then 0.5
      else
        var lo, hi := MinOf(ys), MaxOf(ys);
        if hi > lo then (Y0(h) - lo) / (hi - lo) else 0.5;
    PositionInfo(rel, rel < 0.2, forall g :: g in same ==> !(Y0(g) < Y0(h)))
  }

  /** `_analyze_position_context()`, indexed like the headings. */
  function PositionContexts(data: seq<Fragment>): (r: seq<PositionInfo>)
    ensures |r| == |data|
  {
    seq(|data|, i requires 0 <= i < |data| => PositionOf(data, i))
  }

  /** `_analyze_position_context()` as the source runs it: one entry per
      heading, in the order of the headings. */
  method AnalyzePositionContext(data: seq<Fragment>) returns (contexts: seq<PositionInfo>)
    ensures contexts == PositionContexts(data)
  {
    contexts := [];
    var i := 0;
    while i < |data|
      invariant i <= |data| && contexts == PositionContexts(data)[..i]
    {
      PositionContextsPrefix(data, i);
      contexts := contexts + [PositionOf(data, i)];
      i := i + 1;
    }
    assert PositionContexts(data)[..i] == PositionContexts(data);
  }

  /** The entries of the first `i + 1` headings are those of the first `i`
      followed by the entry of heading `i`. */
  lemma PositionContextsPrefix(data: seq<Fragment>, i: nat)
    requires i < |data|
    ensures PositionContexts(data)[..i + 1] == PositionContexts(data)[..i] + [PositionOf(data, i)]
  {
    var all := PositionContexts(data);
    assert all[..i + 1] == all[..i] + [all[i]];
  }

  /** Index of a highest heading on page `page` among `data`. */
  function TopmostOn(data: seq<Fragment>, page: int, k: nat): (r: nat)
    requires k < |data| && data[k].page == page
    ensures r < |data| && data[r].page == page
    ensures forall j :: k <= j < |data| && data[j].page == page ==> Y0(data[r]) <= Y0(data[j])
    decreases |data| - k
  {
    var rest := if k + 1 < |data| then Next(data, page, k + 1) else |data|;
    if rest == |data| then
      assert forall j :: k < j < |data| ==> data[j].page != page;
      k
    else
      var r := TopmostOn(data, page, rest);
      if Y0(data[k]) <= Y0(data[r]) then k else r
  }

  /** The first index at or after `k` on page `page`, or `|data|`. */
  function Next(data: seq<Fragment>, page: int, k: nat): (r: nat)
    requires k <= |data|
    ensures k <= r <= |data|
    ensures r < |data| ==> data[r].page == page
    ensures forall j :: k <= j < r ==> data[j].page != page
    decreases |data| - k
  {
    if k == |data| then k
    else if data[k].page == page then k
    else Next(data, page, k + 1)
  }

  /** Every page with a heading has a heading that is first on it. */
  lemma SomeHeadingFirstOnPage(data: seq<Fragment>, i: nat)
    requires i < |data|
    ensures exists j :: 0 <= j < |data| && data[j].page == data[i].page && PositionOf(data, j).isFirstOnPage
  {
    var page := data[i].page;
    var k := Next(data, page, 0);
    var r := TopmostOn(data, page, k);
    forall g | g in OnPage(data, page) ensures !(Y0(g) < Y0(data[r])) {
      var j :| 0 <= j < |data| && data[j] == g;
    }
    assert PositionOf(data, r).isFirstOnPage;
  }
}
