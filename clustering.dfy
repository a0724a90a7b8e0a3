/** Font-size clustering of the title classifier: the distinct sizes, largest
    first, are cut where the gap to the next size is large in absolute or in
    relative terms, and then the adjacent pair of clusters whose union varies
    least is merged until no more than `max_levels` (and never fewer than two)
    clusters remain.

    The source ranks a union by its coefficient of variation, `stdev/mean`.
    This model ranks it by `variance/mean²`, the square of that value: both
    are 0 for a single size or a non-positive mean and non-negative
    otherwise, and squaring is strictly increasing on non-negative numbers,
    so the least union, and the first of several least ones, is the same. */
module Clustering {
  import opened Sorting

  // ---------------------------------------------------------------------
  // Arithmetic on clusters
  // ---------------------------------------------------------------------

  function Sum(s: seq<real>): real {
    if s == [] then 0.0 else Sum(s[..|s| - 1]) + s[|s| - 1]
  }

  function Mean(s: seq<real>): real
    requires |s| > 0
  {
    Sum(s) / (|s| as real)
  }

  /** Sum of squared deviations from `m`. */
  function SquaredDeviations(s: seq<real>, m: real): (r: real)
    ensures r >= 0.0
  {
    if s == [] then 0.0
    else
      var d := s[|s| - 1] - m;
      SquareNonNegative(d);
      SquaredDeviations(s[..|s| - 1], m) + d * d
  }

  lemma SquareNonNegative(d: real)
    ensures d * d >= 0.0
  {
    if d < 0.0 {
      assert d * d == (-d) * (-d);
    }
  }

  lemma QuotientNonNegative(a: real, b: real)
    requires a >= 0.0 && b > 0.0
    ensures a / b >= 0.0
  {
  }

  /** `_calculate_cluster_variation`, squared: the sample variance divided
      twice by the mean, 0 for fewer than two sizes or a non-positive mean. */
  function Variation(c: seq<real>): (r: real)
    ensures r >= 0.0
  {
    if |c| <= 1 then 0.0
    else
      var m := Mean(c);
      if m > 0.0 then
        var variance := SquaredDeviations(c, m) / ((|c| - 1) as real);
        QuotientNonNegative(SquaredDeviations(c, m), (|c| - 1) as real);
        QuotientNonNegative(variance, m);
        QuotientNonNegative(variance / m, m);
        variance / m / m
      else 0.0
  }

  /** The sizes of all clusters, in order. */
  function Flatten(cs: seq<seq<real>>): seq<real> {
    if cs == [] then [] else Flatten(cs[..|cs| - 1]) + cs[|cs| - 1]
  }

  ghost predicate AllNonEmpty(cs: seq<seq<real>>) {
    forall i :: 0 <= i < |cs| ==> cs[i] != []
  }

  // ---------------------------------------------------------------------
  // The first pass: cut at large gaps
  // ---------------------------------------------------------------------

  /** The gaps between consecutive sizes. */
  function Gaps(sizes: seq<real>): (g: seq<real>)
    requires |sizes| >= 1
    ensures |g| == |sizes| - 1
  {
    seq(|sizes| - 1, i requires 0 <= i < |sizes| - 1 => sizes[i] - sizes[i + 1])
  }

  /** The gap after `sizes[i]` relative to `sizes[i]`, 0 when that is not positive. */
  function RelativeGap(sizes: seq<real>, i: nat): real
    requires i + 1 < |sizes|
  {
    if sizes[i] > 0.0 then (sizes[i] - sizes[i + 1]) / sizes[i] else 0.0
  }

  /** A new cluster starts after `sizes[i]`. */
  predicate IsBreak(sizes: seq<real>, i: nat, threshold: real)
    requires i + 1 < |sizes|
  {
    sizes[i] - sizes[i + 1] > threshold || RelativeGap(sizes, i) > 0.1
  }

  /** The median gap times 1.2. */
  function GapThreshold(sizes: seq<real>): real
    requires |sizes| >= 2
  {
    Median(Gaps(sizes)) * 1.2
  }

  /** The clusters of `sizes[..k]`, the open cluster last. */
  function BuildUpTo(sizes: seq<real>, threshold: real, k: nat): (cs: seq<seq<real>>)
    requires 1 <= k <= |sizes|
    ensures |cs| >= 1
  {
    if k == 1 then [[sizes[0]]]
    else
      var cs := BuildUpTo(sizes, threshold, k - 1);
      if IsBreak(sizes, k - 2, threshold) then cs + [[sizes[k - 1]]]
      else cs[..|cs| - 1] + [cs[|cs| - 1] + [sizes[k - 1]]]
  }

  lemma FlattenAppend(cs: seq<seq<real>>, c: seq<real>)
    ensures Flatten(cs + [c]) == Flatten(cs) + c
  {
    assert (cs + [c])[..|cs|] == cs;
  }

  /** The first pass splits `sizes[..k]` into non-empty clusters, in order. */
  lemma {:induction false} BuildUpToPartitions(sizes: seq<real>, threshold: real, k: nat)
    requires 1 <= k <= |sizes|
    ensures Flatten(BuildUpTo(sizes, threshold, k)) == sizes[..k]
    ensures AllNonEmpty(BuildUpTo(sizes, threshold, k))
  {
    if k == 1 {
      assert Flatten([[sizes[0]]]) == Flatten([]) + [sizes[0]];
    } else {
      BuildUpToPartitions(sizes, threshold, k - 1);
      var cs := BuildUpTo(sizes, threshold, k - 1);
      assert sizes[..k] == sizes[..k - 1] + [sizes[k - 1]];
      var x := sizes[k - 1];
      BuildUpToStep(sizes, threshold, k);
      if BuildUpTo(sizes, threshold, k) == cs + [[x]] {
        NewCluster(cs, x);
      } else {
        ExtendLast(cs, x);
      }
    }
  }

  /** Each size either opens a new cluster or joins the open one. */
  lemma BuildUpToStep(sizes: seq<real>, threshold: real, k: nat)
    requires 2 <= k <= |sizes|
    ensures var cs := BuildUpTo(sizes, threshold, k - 1);
            var x := sizes[k - 1];
            || BuildUpTo(sizes, threshold, k) == cs + [[x]]
            || BuildUpTo(sizes, threshold, k) == cs[..|cs| - 1] + [cs[|cs| - 1] + [x]]
  {
  }

  /** Opening a new cluster with `x` appends `x` to the flattened clusters. */
  lemma NewCluster(cs: seq<seq<real>>, x: real)
    requires AllNonEmpty(cs)
    ensures Flatten(cs + [[x]]) == Flatten(cs) + [x]
    ensures AllNonEmpty(cs + [[x]])
  {
    FlattenAppend(cs, [x]);
  }

  /** Adding `x` to the open cluster appends `x` to the flattened clusters. */
  lemma ExtendLast(cs: seq<seq<real>>, x: real)
    requires |cs| >= 1 && AllNonEmpty(cs)
    ensures var r := cs[..|cs| - 1] + [cs[|cs| - 1] + [x]];
            Flatten(r) == Flatten(cs) + [x] && AllNonEmpty(r)
  {
    var init := cs[..|cs| - 1];
    var last := cs[|cs| - 1];
    var r := init + [last + [x]];
    assert cs == init + [last];
    FlattenAppend(init, last);
    FlattenAppend(init, last + [x]);
    forall i | 0 <= i < |r| ensures r[i] != [] {
      if i < |init| { assert r[i] == cs[i]; }
    }
  }

  // ---------------------------------------------------------------------
  // The second pass: merge the least-varying adjacent pair
  // ---------------------------------------------------------------------

  /** The variations of the unions of adjacent clusters. */
  function PairVariations(cs: seq<seq<real>>): (v: seq<real>)
    requires |cs| >= 1
    ensures |v| == |cs| - 1
  {
    seq(|cs| - 1, i requires 0 <= i < |cs| - 1 => Variation(cs[i] + cs[i + 1]))
  }

  /** The scan for the least value: `best` holds the first least value among
      `vals[..i]`; a later value replaces it only when strictly smaller. */
  function ArgMinFrom(vals: seq<real>, i: nat, best: nat): (r: nat)
    requires best < i <= |vals|
    requires forall j :: 0 <= j < i ==> vals[best] <= vals[j]
    requires forall j :: 0 <= j < best ==> vals[j] > vals[best]
    ensures r < |vals|
    ensures forall j :: 0 <= j < |vals| ==> vals[r] <= vals[j]
    ensures forall j :: 0 <= j < r ==> vals[j] > vals[r]
    decreases |vals| - i
  {
    if i == |vals| then best
    else ArgMinFrom(vals, i + 1, if vals[i] < vals[best] then i else best)
  }

  /** The first index of a least value. */
  function ArgMin(vals: seq<real>): (r: nat)
    requires |vals| > 0
    ensures r < |vals|
    ensures forall j :: 0 <= j < |vals| ==> vals[r] <= vals[j]
    ensures forall j :: 0 <= j < r ==> vals[j] > vals[r]
  {
    ArgMinFrom(vals, 1, 0)
  }

  /** Clusters `m` and `m + 1` joined into one. */
  function MergeAt(cs: seq<seq<real>>, m: nat): (r: seq<seq<real>>)
    requires m + 1 < |cs|
    ensures |r| == |cs| - 1
  {
    cs[..m] + [cs[m] + cs[m + 1]] + cs[m + 2..]
  }

  /** The merge loop. */
  function MergeClusters(cs: seq<seq<real>>, maxLevels: int): seq<seq<real>>
    decreases |cs|
  {
    if |cs| > maxLevels && |cs| > 2 then
      MergeClusters(MergeAt(cs, ArgMin(PairVariations(cs))), maxLevels)
    else cs
  }

  /** `_create_adaptive_font_clusters(sorted_sizes)` */
  function AdaptiveFontClusters(sizes: seq<real>, maxLevels: int): seq<seq<real>> {
    if |sizes| == 0 then []
    else if |sizes| == 1 then [sizes]
    else MergeClusters(BuildUpTo(sizes, GapThreshold(sizes), |sizes|), maxLevels)
  }

  lemma {:induction false} FlattenConcat(a: seq<seq<real>>, b: seq<seq<real>>)
    ensures Flatten(a + b) == Flatten(a) + Flatten(b)
    decreases |b|
  {
    if b == [] {
      assert a + b == a;
    } else {
      var init := b[..|b| - 1];
      assert a + b == (a + init) + [b[|b| - 1]];
      FlattenConcat(a, init);
      FlattenAppend(a + init, b[|b| - 1]);
      assert b == init + [b[|b| - 1]];
      FlattenAppend(init, b[|b| - 1]);
    }
  }

  lemma FlattenThree(a: seq<seq<real>>, xs: seq<seq<real>>, b: seq<seq<real>>)
    ensures Flatten(a + xs + b) == Flatten(a) + Flatten(xs) + Flatten(b)
  {
    FlattenConcat(a + xs, b);
    FlattenConcat(a, xs);
  }

  lemma FlattenMerged(a: seq<seq<real>>, x: seq<real>, y: seq<real>, b: seq<seq<real>>)
    ensures Flatten(a + [x, y] + b) == Flatten(a + [x + y] + b)
  {
    FlattenThree(a, [x, y], b);
    FlattenThree(a, [x + y], b);
    assert [x, y] == [x] + [y];
    FlattenAppend([x], y);
    FlattenAppend([], x);
    FlattenAppend([], x + y);
  }

  /** Merging two neighbours keeps the sizes and their order. */
  lemma MergeAtKeeps(cs: seq<seq<real>>, m: nat)
    requires m + 1 < |cs|
    ensures Flatten(MergeAt(cs, m)) == Flatten(cs)
  {
    SplitAround(cs, m);
    FlattenMerged(cs[..m], cs[m], cs[m + 1], cs[m + 2..]);
  }

  lemma SplitAround(cs: seq<seq<real>>, m: nat)
    requires m + 1 < |cs|
    ensures cs == cs[..m] + [cs[m], cs[m + 1]] + cs[m + 2..]
  {
    var split := cs[..m] + [cs[m], cs[m + 1]] + cs[m + 2..];
    forall i | 0 <= i < |cs| ensures cs[i] == split[i] {
      if i >= m + 2 { assert split[i] == cs[m + 2..][i - m - 2]; }
    }
  }

  lemma MergeAtNonEmpty(cs: seq<seq<real>>, m: nat)
    requires m + 1 < |cs| && AllNonEmpty(cs)
    ensures AllNonEmpty(MergeAt(cs, m))
  {
    var r := MergeAt(cs, m);
    forall i | 0 <= i < |r| ensures r[i] != [] {
      if i < m { assert r[i] == cs[i]; }
      else if i > m { assert r[i] == cs[i + 1]; }
    }
  }

  lemma {:induction false} MergeClustersKeeps(cs: seq<seq<real>>, maxLevels: int)
    requires AllNonEmpty(cs) && |cs| >= 1
    ensures Flatten(MergeClusters(cs, maxLevels)) == Flatten(cs)
    ensures AllNonEmpty(MergeClusters(cs, maxLevels))
    ensures |MergeClusters(cs, maxLevels)| <= |cs|
    ensures |MergeClusters(cs, maxLevels)| <= if maxLevels > 2 then maxLevels else 2
    decreases |cs|
  {
    if |cs| > maxLevels && |cs| > 2 {
      var m := ArgMin(PairVariations(cs));
      MergeAtKeeps(cs, m);
      MergeAtNonEmpty(cs, m);
      MergeClustersKeeps(MergeAt(cs, m), maxLevels);
    }
  }

  /** The font clusters are non-empty, hold exactly the given sizes in their
      order, and number at most `max(max_levels, 2)`. */
  lemma AdaptiveFontClustersPartition(sizes: seq<real>, maxLevels: int)
    ensures Flatten(AdaptiveFontClusters(sizes, maxLevels)) == sizes
    ensures AllNonEmpty(AdaptiveFontClusters(sizes, maxLevels))
    ensures |AdaptiveFontClusters(sizes, maxLevels)| <= if maxLevels > 2 then maxLevels else 2
    ensures sizes != [] ==> |AdaptiveFontClusters(sizes, maxLevels)| >= 1
  {
    if |sizes| == 1 {
      assert Flatten([sizes]) == Flatten([]) + sizes;
    } else if |sizes| >= 2 {
      var thr := GapThreshold(sizes);
      BuildUpToPartitions(sizes, thr, |sizes|);
      assert sizes[..|sizes|] == sizes;
      MergeClustersKeeps(BuildUpTo(sizes, thr, |sizes|), maxLevels);
      MergeClustersNonEmpty(BuildUpTo(sizes, thr, |sizes|), maxLevels);
    }
  }

  lemma {:induction false} MergeClustersNonEmpty(cs: seq<seq<real>>, maxLevels: int)
    requires |cs| >= 1
    ensures |MergeClusters(cs, maxLevels)| >= 1
    decreases |cs|
  {
    if |cs| > maxLevels && |cs| > 2 {
      MergeClustersNonEmpty(MergeAt(cs, ArgMin(PairVariations(cs))), maxLevels);
    }
  }

  // ---------------------------------------------------------------------
  // The loops as the source runs them
  // ---------------------------------------------------------------------

  /** The cut loop of `_create_adaptive_font_clusters`: a new cluster is
      opened after every large gap. */
  method CutAtGaps(sortedSizes: seq<real>, threshold: real) returns (clusters: seq<seq<real>>)
    requires |sortedSizes| >= 1
    ensures clusters == BuildUpTo(sortedSizes, threshold, |sortedSizes|)
  {
    clusters := [];
    var current := [sortedSizes[0]];
    var idx := 0;
    while idx < |sortedSizes| - 1
      invariant 0 <= idx <= |sortedSizes| - 1
      invariant clusters + [current] == BuildUpTo(sortedSizes, threshold, idx + 1)
    {
      if IsBreak(sortedSizes, idx, threshold) {
        clusters := clusters + [current];
        current := [sortedSizes[idx + 1]];
      } else {
        current := current + [sortedSizes[idx + 1]];
      }
      idx := idx + 1;
    }
    clusters := clusters + [current];
  }

  /** The scan of the merge loop for the first adjacent pair whose union
      varies least. */
  method LeastVaryingPair(clusters: seq<seq<real>>) returns (mergeIdx: nat)
    requires |clusters| >= 2
    ensures mergeIdx == ArgMin(PairVariations(clusters))
  {
    ghost var vals := PairVariations(clusters);
    // The scan starts from an infinite minimum, so the first pair is always taken.
    var minVariation := Variation(clusters[0] + clusters[1]);
    mergeIdx := 0;
    var i := 1;
    while i < |clusters| - 1
      invariant 1 <= i <= |clusters| - 1
      invariant 0 <= mergeIdx < i && minVariation == vals[mergeIdx]
      invariant forall j :: 0 <= j < i ==> vals[mergeIdx] <= vals[j]
      invariant forall j :: 0 <= j < mergeIdx ==> vals[j] > vals[mergeIdx]
    {
      var variation := Variation(clusters[i] + clusters[i + 1]);
      if variation < minVariation {
        minVariation := variation;
        mergeIdx := i;
      }
      i := i + 1;
    }
    ArgMinUnique(vals, mergeIdx);
  }

  /** The first least value has one index. */
  lemma ArgMinUnique(vals: seq<real>, m: nat)
    requires m < |vals|
    requires forall j :: 0 <= j < |vals| ==> vals[m] <= vals[j]
    requires forall j :: 0 <= j < m ==> vals[j] > vals[m]
    ensures m == ArgMin(vals)
  {
    var r := ArgMin(vals);
    assert vals[r] <= vals[m] && vals[m] <= vals[r];
  }

  /** `_create_adaptive_font_clusters`: the cut loop, then the merge loop,
      which extends the first cluster of the least-varying pair by the second
      and pops the second. */
  method CreateAdaptiveFontClusters(sortedSizes: seq<real>, maxLevels: int) returns (clusters: seq<seq<real>>)
    ensures clusters == AdaptiveFontClusters(sortedSizes, maxLevels)
  {
    if |sortedSizes| <= 1 {
      clusters := if sortedSizes == [] then [] else [sortedSizes];
      return;
    }
    clusters := CutAtGaps(sortedSizes, GapThreshold(sortedSizes));
    while |clusters| > maxLevels && |clusters| > 2
      invariant MergeClusters(clusters, maxLevels) == AdaptiveFontClusters(sortedSizes, maxLevels)
      decreases |clusters|
    {
      var mergeIdx := LeastVaryingPair(clusters);
      clusters := clusters[..mergeIdx] + [clusters[mergeIdx] + clusters[mergeIdx + 1]] + clusters[mergeIdx + 2..];
    }
  }
}
