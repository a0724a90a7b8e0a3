/** `AdvancedTitleClassifier`: keeps the records flagged as headings,
    precomputes statistics over them, scores every heading, picks the
    document title and builds the levelled outline. */
module Classifier {
  import opened PyStr
  import opened Records
  import opened Sorting
  import opened Numbering
  import opened LayoutStats
  import opened Clustering
  import opened TextPatterns
  import opened Scoring
  import opened Title
  import opened Levels
  import opened Outline

  // ---------------------------------------------------------------------
  // The inputs of the statistics
  // ---------------------------------------------------------------------

  /** `[h for h in structure_data if h.get("is_heading")]` */
  function HeadingsOf(records: seq<Fragment>): (r: seq<Fragment>)
    ensures |r| <= |records|
    ensures forall h :: h in r <==> h in records && h.isHeading
  {
    if records == [] then []
    else (if records[0].isHeading then [records[0]] else []) + HeadingsOf(records[1..])
  }

  /** `[h.get("font_size", 0) for h in data]` */
  function FontSizes(data: seq<Fragment>): (r: seq<real>)
    ensures |r| == |data| && forall i :: 0 <= i < |data| ==> r[i] == data[i].fontSize
  {
    seq(|data|, i requires 0 <= i < |data| => data[i].fontSize)
  }

  /** The left edges, 0 for a heading without a box. */
  function LeftEdges(data: seq<Fragment>): (r: seq<real>)
    ensures |r| == |data| && forall i :: 0 <= i < |data| ==> r[i] == X0(data[i])
  {
    seq(|data|, i requires 0 <= i < |data| => X0(data[i]))
  }

  /** The widths, 0 for a heading without a box. */
  function Widths(data: seq<Fragment>): (r: seq<real>)
    ensures |r| == |data| && forall i :: 0 <= i < |data| ==> r[i] == Width(data[i])
  {
    seq(|data|, i requires 0 <= i < |data| => Width(data[i]))
  }

  // ---------------------------------------------------------------------
  // Cluster ranks
  // ---------------------------------------------------------------------

  /** `size_to_cluster_rank`: every size of cluster `rank` maps to `rank`, a
      later cluster overriding an earlier one. */
  function ClusterRanks(clusters: seq<seq<real>>): map<real, nat> {
    if clusters == [] then map[]
    else
      var k := |clusters| - 1;
      ClusterRanks(clusters[..k]) + map s | s in clusters[k] :: k
  }

  /** Exactly the clustered sizes get a rank, and that rank is the last
      cluster holding the size. */
  lemma {:induction false} ClusterRanksSpec(clusters: seq<seq<real>>, s: real)
    ensures s in ClusterRanks(clusters) <==> s in Flatten(clusters)
    ensures s in ClusterRanks(clusters) ==>
              var r := ClusterRanks(clusters)[s];
              r < |clusters| && s in clusters[r]
              && forall q :: r < q < |clusters| ==> s !in clusters[q]
  {
    if clusters != [] {
      var k := |clusters| - 1;
      var init := clusters[..k];
      ClusterRanksSpec(init, s);
      assert forall q :: 0 <= q < k ==> init[q] == clusters[q];
    }
  }

  /** The nested loop filling `size_to_cluster_rank`. */
  method BuildClusterRanks(clusters: seq<seq<real>>) returns (ranks: map<real, nat>)
    ensures ranks == ClusterRanks(clusters)
  {
    ranks := map[];
    var rank := 0;
    while rank < |clusters|
      invariant 0 <= rank <= |clusters|
      invariant ranks == ClusterRanks(clusters[..rank])
    {
      var cluster := clusters[rank];
      var before := ranks;
      var j := 0;
      while j < |cluster|
        invariant 0 <= j <= |cluster|
        invariant ranks == before + map s | s in cluster[..j] :: rank
      {
        ranks := ranks[cluster[j] := rank];
        assert forall s :: s in cluster[..j + 1] <==> s in cluster[..j] || s == cluster[j];
        j := j + 1;
      }
      assert cluster[..j] == cluster;
      assert clusters[..rank + 1][..rank] == clusters[..rank];
      rank := rank + 1;
    }
    assert clusters[..rank] == clusters;
  }

  // ---------------------------------------------------------------------
  // The statistics
  // ---------------------------------------------------------------------

  /** `_precompute_features()`: the statistics over the headings `data`. */
  function StatsOf(data: seq<Fragment>, maxLevels: int): Stats {
    var unique := DistinctDesc(FontSizes(data));
    var clusters := AdaptiveFontClusters(unique, maxLevels);
    var texts := Texts(data);
    Stats(clusters, ClusterRanks(clusters), NormalizeSizes(unique),
          IndentLevels(LeftEdges(data)), WidthPercentiles(Widths(data)),
          PositionContexts(data), NumberedSequences(Detections(texts)),
          CommonPrefixes(PrefixKeys(texts)))
  }

  /** The precomputed statistics are sane, every heading's size lies in the
      cluster its rank names, and at most `max(max_levels, 2)` clusters. */
  lemma StatsAreSane(data: seq<Fragment>, maxLevels: int)
    ensures var stats := StatsOf(data, maxLevels);
            && SaneStats(stats)
            && |stats.sizeClusters| <= (if maxLevels > 2 then maxLevels else 2)
            && (forall s :: s in stats.sizeRank ==> stats.sizeRank[s] < |stats.sizeClusters|)
            && (forall h :: h in data ==>
                  h.fontSize in stats.sizeRank && h.fontSize in stats.sizeClusters[stats.sizeRank[h.fontSize]])
  {
    var stats := StatsOf(data, maxLevels);
    var unique := DistinctDesc(FontSizes(data));
    var clusters := stats.sizeClusters;
    AdaptiveFontClustersPartition(unique, maxLevels);
    forall v | v in stats.sizeNorm ensures stats.sizeNorm[v] <= 1.0 {
      NormalizedShare(unique, v);
    }
    forall x | x in stats.indentLevels ensures stats.indentLevels[x] >= 0 {
      IndentLevelsKeys(LeftEdges(data), x);
      IndentLevelBounded(LeftEdges(data), x);
    }
    forall s | s in stats.sizeRank ensures stats.sizeRank[s] < |clusters| {
      ClusterRanksSpec(clusters, s);
    }
    forall h | h in data
      ensures h.fontSize in stats.sizeRank && h.fontSize in clusters[stats.sizeRank[h.fontSize]]
    {
      var i :| 0 <= i < |data| && data[i] == h;
      assert FontSizes(data)[i] == h.fontSize;
      assert h.fontSize in unique;
      ClusterRanksSpec(clusters, h.fontSize);
    }
  }

  /** The font clusters and their ranks, as the first part of
      `_precompute_features` computes them. */
  method FontClusters(data: seq<Fragment>, maxLevels: int) returns (clusters: seq<seq<real>>, ranks: map<real, nat>)
    ensures clusters == AdaptiveFontClusters(DistinctDesc(FontSizes(data)), maxLevels)
    ensures ranks == ClusterRanks(clusters)
  {
    var unique := DistinctDesc(FontSizes(data));
    clusters := CreateAdaptiveFontClusters(unique, maxLevels);
    ranks := BuildClusterRanks(clusters);
  }

  /** `_analyze_text_patterns()`: the numbered sequences and the groups of
      common prefixes. */
  method AnalyzeTextPatterns(data: seq<Fragment>) returns (sequences: seq<seq<nat>>, prefixes: map<string, seq<nat>>)
    ensures sequences == NumberedSequences(Detections(Texts(data)))
    ensures prefixes == CommonPrefixes(PrefixKeys(Texts(data)))
  {
    var texts := Texts(data);
    sequences := FindNumberedSequences(Detections(texts));
    prefixes := FindCommonPrefixes(PrefixKeys(texts));
  }

  /** The statistics `_precompute_features()` stores. */
  method ComputeStats(data: seq<Fragment>, maxLevels: int) returns (stats: Stats)
    ensures stats == StatsOf(data, maxLevels)
  {
    var clusters, ranks := FontClusters(data, maxLevels);
    var indent := CalculateIndentLevels(LeftEdges(data));
    var normalized := NormalizeWithDistribution(DistinctDesc(FontSizes(data)));
    var positions := AnalyzePositionContext(data);
    var sequences, prefixes := AnalyzeTextPatterns(data);
    stats := Stats(clusters, ranks, normalized, indent,
                   WidthPercentiles(Widths(data)), positions, sequences, prefixes);
  }

  // ---------------------------------------------------------------------
  // Scores and the document
  // ---------------------------------------------------------------------

  /** `_score_heading` as a function of the heading's index. */
  function HeadingScorer(stats: Stats, data: seq<Fragment>): nat -> real {
    (i: nat) => if i < |data| then ScoreHeading(stats, data, i) else 0.0
  }

  /** Every heading with its index and the score `score` gives that index. */
  function ScoredBy(data: seq<Fragment>, score: nat -> real): (r: seq<Scored>)
    ensures |r| == |data|
    ensures forall i :: 0 <= i < |data| ==> r[i] == Scored(i, data[i], score(i))
  {
    seq(|data|, i requires 0 <= i < |data| => Scored(i, data[i], score(i)))
  }

  /** `_score_all()`: every heading with its index and score. */
  function ScoredOf(stats: Stats, data: seq<Fragment>): (r: seq<Scored>)
    ensures |r| == |data|
    ensures forall i :: 0 <= i < |data| ==> r[i].idx == i && r[i].heading == data[i]
  {
    ScoredBy(data, HeadingScorer(stats, data))
  }

  /** The loop of `_score_all()`, scoring the headings in order. */
  method ScoreEach(data: seq<Fragment>, score: nat -> real) returns (scored: seq<Scored>)
    ensures scored == ScoredBy(data, score)
  {
    scored := [];
    var i := 0;
    while i < |data|
      invariant 0 <= i <= |data|
      invariant scored == ScoredBy(data, score)[..i]
    {
      scored := scored + [Scored(i, data[i], score(i))];
      i := i + 1;
    }
  }

  /** With sane statistics the score of each heading lies in [0, 1.23]. */
  lemma ScoreBoundedAt(stats: Stats, data: seq<Fragment>, i: nat)
    requires SaneStats(stats) && i < |data|
    ensures 0.0 <= HeadingScorer(stats, data)(i) <= 1.23
  {
    assert HeadingScorer(stats, data)(i) == ScoreHeading(stats, data, i);
    ScoreHeadingBounded(stats, data, i);
  }

  /** With sane statistics every score lies in [0, 1.23], and the indices
      tell the scored headings apart. */
  lemma ScoresBounded(stats: Stats, data: seq<Fragment>)
    requires SaneStats(stats)
    ensures var scored := ScoredOf(stats, data);
            && IdxDetermines(scored)
            && forall s :: s in scored ==> 0.0 <= s.score <= 1.23
  {
    var scored := ScoredOf(stats, data);
    forall s | s in scored ensures 0.0 <= s.score <= 1.23 {
      var i :| 0 <= i < |scored| && scored[i] == s;
      ScoreBoundedAt(stats, data, i);
      assert s == ScoredBy(data, HeadingScorer(stats, data))[i];
    }
  }

  /** `classify()` over the headings `data`. */
  function ClassifyHeadings(data: seq<Fragment>, maxLevels: int): Document {
    if data == [] then EmptyDocument
    else
      var stats := StatsOf(data, maxLevels);
      var scored := ScoredOf(stats, data);
      var title := ExtractDocumentTitle(scored);
      Document(title, CreateOutline(scored, title, stats.indentLevels, stats.widths))
  }

  /** The document built from scored headings `scored`: a title chosen by
      the title rule (the joined doc-title parts near the topmost doc title,
      or else the first topmost candidate) and an outline in reading order
      (page, then the top edge of the heading) whose every entry is the
      stripped text and page of a heading that does not repeat the title, H1
      when it is a main chapter. */
  lemma DocumentPromise(data: seq<Fragment>, scored: seq<Scored>, indent: map<real, int>,
                         widths: Percentiles, e: Entry)
    requires |scored| == |data| && forall i :: 0 <= i < |data| ==> scored[i].heading == data[i]
    requires IdxDetermines(scored)
    ensures var title := ExtractDocumentTitle(scored);
            var outline := CreateOutline(scored, title, indent, widths);
            && TitleRule(scored, title)
            && InReadingOrder(outline, scored)
            && (e in outline ==>
                  exists h :: h in data && !RepeatsTitle(WordSet(title), h.text)
                              && e.text == Strip(h.text) && e.page == h.page
                              && (DetectNumbering(h.text).pattern == MainChapter ==> e.level == H1))
  {
    var title := ExtractDocumentTitle(scored);
    TitleChoice(scored);
    OutlineInPageOrder(scored, title, indent, widths);
    if e in CreateOutline(scored, title, indent, widths) {
      EntryFromHeading(data, scored, title, indent, widths, e);
    }
  }

  /** Every outline entry comes from a heading of `data`. */
  lemma EntryFromHeading(data: seq<Fragment>, scored: seq<Scored>, title: string,
                          indent: map<real, int>, widths: Percentiles, e: Entry)
    requires |scored| == |data| && forall i :: 0 <= i < |data| ==> scored[i].heading == data[i]
    requires IdxDetermines(scored) && e in CreateOutline(scored, title, indent, widths)
    ensures exists h :: h in data && !RepeatsTitle(WordSet(title), h.text)
                        && e.text == Strip(h.text) && e.page == h.page
                        && (DetectNumbering(h.text).pattern == MainChapter ==> e.level == H1)
  {
    var k := OutlineEntryOrigin(scored, title, indent, widths, e);
    assert scored[k].heading == data[k];
    assert data[k] in data;
  }

  /** What `classify()` promises: nothing from no headings; otherwise the
      document `DocumentPromise` describes, over scores in [0, 1.23]. */
  lemma ClassificationPromise(data: seq<Fragment>, maxLevels: int, e: Entry)
    ensures data == [] ==> ClassifyHeadings(data, maxLevels) == EmptyDocument
    ensures data != [] ==>
              var stats := StatsOf(data, maxLevels);
              var scored := ScoredOf(stats, data);
              var doc := ClassifyHeadings(data, maxLevels);
              && (forall s :: s in scored ==> 0.0 <= s.score <= 1.23)
              && doc.title == ExtractDocumentTitle(scored)
              && TitleRule(scored, doc.title)
              && InReadingOrder(doc.outline, scored)
              && (e in doc.outline ==>
                    exists h :: h in data && !RepeatsTitle(WordSet(doc.title), h.text)
                                && e.text == Strip(h.text) && e.page == h.page
                                && (DetectNumbering(h.text).pattern == MainChapter ==> e.level == H1))
  {
    if data != [] {
      var stats := StatsOf(data, maxLevels);
      var scored := ScoredOf(stats, data);
      var title := ExtractDocumentTitle(scored);
      assert ClassifyHeadings(data, maxLevels)
             == Document(title, CreateOutline(scored, title, stats.indentLevels, stats.widths));
      StatsAreSane(data, maxLevels);
      ScoresBounded(stats, data);
      DocumentPromise(data, scored, stats.indentLevels, stats.widths, e);
    }
  }

  // ---------------------------------------------------------------------
  // The classifier object
  // ---------------------------------------------------------------------

  class AdvancedTitleClassifier {
    var data: seq<Fragment>
    var maxLevels: int
    var sizeClusters: seq<seq<real>>
    var sizeToClusterRank: map<real, nat>
    var sizeNorm: map<real, real>
    var indentLevels: map<real, int>
    var widthPercentiles: Percentiles
    var positionContext: seq<PositionInfo>
    var numberedSequences: seq<seq<nat>>
    var commonPrefixes: map<string, seq<nat>>

    /** The statistics the fields hold. */
    function CurrentStats(): Stats
      reads this
    {
      Stats(sizeClusters, sizeToClusterRank, sizeNorm, indentLevels, widthPercentiles,
            positionContext, numberedSequences, commonPrefixes)
    }

    /** Keeps the heading records; the statistics start empty. */
    constructor(structureData: seq<Fragment>, maxLevels: int)
      ensures data == HeadingsOf(structureData) && this.maxLevels == maxLevels
    {
      data := HeadingsOf(structureData);
      this.maxLevels := maxLevels;
      sizeClusters := [];
      sizeToClusterRank := map[];
      sizeNorm := map[];
      indentLevels := map[];
      widthPercentiles := Percentiles(0.0, 0.0, 0.0, 0.0);
      positionContext := [];
      numberedSequences := [];
      commonPrefixes := map[];
    }

    /** `_precompute_features()`: fills the statistics from the headings. */
    method PrecomputeFeatures()
      modifies this
      ensures data == old(data) && maxLevels == old(maxLevels)
      ensures CurrentStats() == StatsOf(data, maxLevels)
    {
      var stats := ComputeStats(data, maxLevels);
      Store(stats);
    }

    /** Stores `stats` in the statistics fields. */
    method Store(stats: Stats)
      modifies this
      ensures data == old(data) && maxLevels == old(maxLevels)
      ensures CurrentStats() == stats
    {
      sizeClusters := stats.sizeClusters;
      sizeToClusterRank := stats.sizeRank;
      sizeNorm := stats.sizeNorm;
      indentLevels := stats.indentLevels;
      widthPercentiles := stats.widths;
      positionContext := stats.positions;
      numberedSequences := stats.sequences;
      commonPrefixes := stats.prefixes;
    }

    /** `_score_all()`: scores the headings in order. */
    method ScoreAll() returns (scored: seq<Scored>)
      ensures scored == ScoredOf(CurrentStats(), data)
    {
      scored := ScoreEach(data, HeadingScorer(CurrentStats(), data));
    }

    /** `classify()`: the empty document without headings, leaving the
        statistics as they were; otherwise precompute the statistics into the
        fields, score, pick the title and build the outline. */
    method Classify() returns (doc: Document)
      modifies this
      ensures data == old(data) && maxLevels == old(maxLevels)
      ensures data == [] ==> CurrentStats() == old(CurrentStats())
      ensures data != [] ==> CurrentStats() == StatsOf(data, maxLevels)
      ensures doc == ClassifyHeadings(data, maxLevels)
    {
      if data == [] {
        return EmptyDocument;
      }
      PrecomputeFeatures();
      var scored := ScoreAll();
      var title := DocumentTitle(scored);
      var outline := CreateHierarchicalOutline(scored, title, indentLevels, widthPercentiles);
      doc := Document(title, outline);
    }
  }
}
