/** The title classifier's heading score: sixteen weighted features of a
    heading, read against the statistics precomputed over all headings. */
module Scoring {
  import opened PyStr
  import opened Records
  import opened Numbering
  import opened Keywords
  import opened LayoutStats
  import opened TextPatterns

  /** What `_precompute_features` stores on the classifier and the scorer
      reads. */
  datatype Stats = Stats(
    sizeClusters: seq<seq<real>>,
    sizeRank: map<real, nat>,
    sizeNorm: map<real, real>,
    indentLevels: map<real, int>,
    widths: Percentiles,
    positions: seq<PositionInfo>,
    sequences: seq<seq<nat>>,
    prefixes: map<string, seq<nat>>)

  /** The statistics the scorer can rely on: normalised sizes are at most 1
      and indent levels are not negative. */
  ghost predicate SaneStats(stats: Stats) {
    (forall v :: v in stats.sizeNorm ==> stats.sizeNorm[v] <= 1.0)
    && (forall x :: x in stats.indentLevels ==> stats.indentLevels[x] >= 0)
  }

  /** The text of every heading. */
  function Texts(data: seq<Fragment>): (r: seq<string>)
    ensures |r| == |data| && forall i :: 0 <= i < |data| ==> r[i] == data[i].text
  {
    seq(|data|, i requires 0 <= i < |data| => data[i].text)
  }

  /** `next((i for i, d in enumerate(data) if d == h), 0)` */
  function FirstIndex(data: seq<Fragment>, h: Fragment): (r: nat)
    ensures h in data ==> r < |data| && data[r] == h && forall j :: 0 <= j < r ==> data[j] != h
    ensures h !in data ==> r == 0
  {
    if data == [] then 0
    else if data[0] == h then 0
    else if h in data[1..] then 1 + FirstIndex(data[1..], h)
    else 0
  }

  /** `position_context.get(idx, {})`: an index without context reads as
      neither first nor at the top of its page. */
  function ContextAt(positions: seq<PositionInfo>, idx: nat): PageContext {
    if idx < |positions| then PageContext(positions[idx].isTopOfPage, positions[idx].isFirstOnPage)
    else NoContext
  }

  // ---------------------------------------------------------------------
  // The features
  // ---------------------------------------------------------------------

  /** The feature dictionary, in the order the scorer fills it. */
  datatype Features = Features(
    fontSizeCluster: real,
    fontSizeNorm: real,
    numberingBonus: real,
    contentAnalysis: real,
    boldBonus: real,
    italicAdjustment: real,
    typeBonus: real,
    indentPenalty: real,
    widthBonus: real,
    pageBonus: real,
    positionBonus: real,
    lengthAdjustment: real,
    sequenceBonus: real,
    subsectionGroupBonus: real,
    noisePenalty: real,
    titleCaseBonus: real)

  /** `sum(features.values())` */
  function FeatureSum(f: Features): real {
    f.fontSizeCluster + f.fontSizeNorm + f.numberingBonus + f.contentAnalysis
    + f.boldBonus + f.italicAdjustment + f.typeBonus + f.indentPenalty
    + f.widthBonus + f.pageBonus + f.positionBonus + f.lengthAdjustment
    + f.sequenceBonus + f.subsectionGroupBonus + f.noisePenalty + f.titleCaseBonus
  }

  /** 0.20 scaled by how high the size's cluster ranks (the last cluster when
      the size has none), or 0.20 with at most one cluster. */
  function ClusterFeature(stats: Stats, size: real): real {
    var nc := |stats.sizeClusters|;
    var rank: int := if size in stats.sizeRank then stats.sizeRank[size] else nc - 1;
    if nc > 1 then 0.20 * (((nc - 1 - rank) as real) / ((nc - 1) as real)) else 0.20
  }

  /** The numbering bonus; a main chapter whose number is in a numbered
      sequence gets 0.05 more. */
  function NumberingFeature(d: Detection, sequential: set<nat>): real {
    match d.pattern
    case MainChapter => 0.25 + (if d.number in sequential then 0.05 else 0.0)
    case Subsection => 0.20
    case Subsubsection => 0.15
    case SimpleNumber => if d.number <= 10 then 0.18 else 0.0
    case _ => 0.0
  }

  function TypeFeature(kind: string): real {
    if Lower(kind) == "doc_title" then 0.08
    else if Lower(kind) == "paragraph_title" then 0.05
    else 0.0
  }

  function IndentFeature(stats: Stats, x0: real): real {
    var level := if x0 in stats.indentLevels then stats.indentLevels[x0] else 0;
    -0.06 * ((if level < 2 then level else 2) as real)
  }

  function WidthFeature(stats: Stats, width: real): real {
    if width > 0.0 then
      if width >= stats.widths.p75 then 0.04
      else if width >= stats.widths.p50 then 0.02
      else 0.0
    else 0.0
  }

  function PageFeature(page: int): real {
    if page == 1 then 0.08
    else if page <= 3 then 0.05
    else if page <= 5 then 0.03
    else 0.0
  }

  function PositionFeature(ctx: PageContext): real {
    if ctx.isFirstOnPage then 0.02 else if ctx.isTopOfPage then 0.01 else 0.0
  }

  function LengthFeature(wordCount: nat): real {
    if wordCount == 1 then -0.02
    else if wordCount <= 3 then 0.03
    else if wordCount <= 6 then 0.01
    else if wordCount <= 12 then 0.0
    else -0.01
  }

  /** The terms that mark a line as page furniture. The last one is the
      mis-decoded copyright sign, which can never occur in lower-cased text
      because its first character is an upper-case letter. */
  const NoiseTerms: seq<string> := ["copyright", "version", "page", "\U{C2}\U{A9}"]

  /** What the scorer reads from a heading's text: its numbering, its content
      score in context, its word count, whether it is in title case and
      whether it contains a noise term. */
  datatype Reading = Reading(det: Detection, contentScore: real, wordCount: nat, titleCase: bool, noisy: bool)

  function Read(text: string, ctx: PageContext): Reading {
    Reading(DetectNumbering(text), ContentAnalysis(text, ctx).0, |Split(text)|, IsTitle(text),
            ContainsAny(Lower(text), NoiseTerms))
  }

  /** The features of heading `h` at index `idx`, given what its text reads. */
  function FeaturesOf(stats: Stats, h: Fragment, idx: nat, sequential: set<nat>, r: Reading): Features {
    var ctx := ContextAt(stats.positions, idx);
    Features(
      ClusterFeature(stats, h.fontSize),
      0.05 * (if h.fontSize in stats.sizeNorm then stats.sizeNorm[h.fontSize] else 0.5),
      NumberingFeature(r.det, sequential),
      0.20 * r.contentScore,
      if h.bold then 0.10 else 0.0,
      if h.italic && !h.bold then -0.03 else 0.0,
      TypeFeature(h.kind),
      IndentFeature(stats, X0(h)),
      WidthFeature(stats, Width(h)),
      PageFeature(h.page),
      PositionFeature(ctx),
      LengthFeature(r.wordCount),
      if InSome(idx, stats.sequences) then 0.03 else 0.0,
      if InGroup(idx, stats.prefixes) then 0.02 else 0.0,
      if r.noisy then -0.15 else 0.0,
      if r.titleCase && r.wordCount > 1 then 0.02 else 0.0)
  }

  /** The score from the features: their sum, plus 0.05 for a main chapter or
      sub-section whose content score exceeds 0.5, never below 0. */
  function ScoreOf(stats: Stats, h: Fragment, idx: nat, sequential: set<nat>, r: Reading): (score: real)
    ensures score >= 0.0
  {
    var total := FeatureSum(FeaturesOf(stats, h, idx, sequential, r));
    var boosted := if r.det.pattern in {MainChapter, Subsection} && r.contentScore > 0.5
                   then total + 0.05 else total;
    if boosted > 0.0 then boosted else 0.0
  }

  /** `_score_heading(h)` for heading `h` found at index `idx`. */
  function HeadingScore(stats: Stats, h: Fragment, idx: nat, sequential: set<nat>): real {
    ScoreOf(stats, h, idx, sequential, Read(h.text, ContextAt(stats.positions, idx)))
  }

  /** The score of heading `i`, looked up by its first equal heading as the
      source does, with the sequential numbers of the precomputed sequences. */
  function ScoreHeading(stats: Stats, data: seq<Fragment>, i: nat): real
    requires i < |data|
  {
    var sequential := SequentialNumbers(Detections(Texts(data)), stats.sequences);
    HeadingScore(stats, data[i], FirstIndex(data, data[i]), sequential)
  }

  // ---------------------------------------------------------------------
  // What the score promises
  // ---------------------------------------------------------------------

  /** Making a heading bold never lowers its score. */
  lemma BoldNeverLowersScore(stats: Stats, h: Fragment, idx: nat, sequential: set<nat>)
    ensures HeadingScore(stats, h.(bold := true), idx, sequential) >= HeadingScore(stats, h.(bold := false), idx, sequential)
  {
    var r := Read(h.text, ContextAt(stats.positions, idx));
    BoldBonus(stats, h, idx, sequential, r);
  }

  lemma BoldBonus(stats: Stats, h: Fragment, idx: nat, sequential: set<nat>, r: Reading)
    ensures ScoreOf(stats, h.(bold := true), idx, sequential, r) >= ScoreOf(stats, h.(bold := false), idx, sequential, r)
  {
    var fb := FeaturesOf(stats, h.(bold := true), idx, sequential, r);
    var fp := FeaturesOf(stats, h.(bold := false), idx, sequential, r);
    assert FeatureSum(fb) >= FeatureSum(fp) + 0.10;
  }

  /** Moving a heading to an earlier page (from page 1 on) never lowers its
      score. */
  lemma EarlierPageNeverLowersScore(stats: Stats, h: Fragment, idx: nat, sequential: set<nat>, p: int, q: int)
    requires 1 <= p <= q
    ensures HeadingScore(stats, h.(page := p), idx, sequential) >= HeadingScore(stats, h.(page := q), idx, sequential)
  {
    var r := Read(h.text, ContextAt(stats.positions, idx));
    PageBonus(stats, h, idx, sequential, r, p, q);
  }

  lemma PageBonus(stats: Stats, h: Fragment, idx: nat, sequential: set<nat>, r: Reading, p: int, q: int)
    requires 1 <= p <= q
    ensures ScoreOf(stats, h.(page := p), idx, sequential, r) >= ScoreOf(stats, h.(page := q), idx, sequential, r)
  {
    assert PageFeature(p) >= PageFeature(q);
  }

  /** A heading in a numbered sequence has 0.03 more in its feature sum than
      it would outside every sequence. */
  lemma SequenceMembershipBonus(stats: Stats, h: Fragment, idx: nat, sequential: set<nat>, r: Reading)
    requires InSome(idx, stats.sequences)
    ensures FeatureSum(FeaturesOf(stats, h, idx, sequential, r))
            == FeatureSum(FeaturesOf(stats.(sequences := []), h, idx, sequential, r)) + 0.03
  {
    assert !InSome(idx, []);
  }

  /** The cluster feature lies in [0, 0.20] when the size's rank is a rank
      of some cluster. */
  lemma ClusterFeatureBounds(stats: Stats, size: real)
    requires size in stats.sizeRank ==> stats.sizeRank[size] < |stats.sizeClusters|
    ensures 0.0 <= ClusterFeature(stats, size) <= 0.20
  {
    var nc := |stats.sizeClusters|;
    if nc > 1 {
      var rank: int := if size in stats.sizeRank then stats.sizeRank[size] else nc - 1;
      Fraction(nc - 1 - rank, nc - 1);
    }
  }

  lemma Fraction(a: int, b: int)
    requires 0 <= a <= b && b > 0
    ensures 0.0 <= (a as real) / (b as real) <= 1.0
  {
  }

  lemma UpperFraction(a: int, b: int)
    requires a <= b && b > 0
    ensures (a as real) / (b as real) <= 1.0
  {
  }

  /** No heading scores above 1.23 when the statistics are sane: the sum of
      every bonus at its largest. */
  lemma ScoreAtMost(stats: Stats, h: Fragment, idx: nat, sequential: set<nat>)
    requires SaneStats(stats)
    ensures HeadingScore(stats, h, idx, sequential) <= 1.23
  {
    var ctx := ContextAt(stats.positions, idx);
    ContentScoreBounds(h.text, ctx);
    ScoreOfAtMost(stats, h, idx, sequential, Read(h.text, ctx));
  }

  /** The score of heading `i` lies in [0, 1.23]. */
  lemma ScoreHeadingBounded(stats: Stats, data: seq<Fragment>, i: nat)
    requires SaneStats(stats) && i < |data|
    ensures 0.0 <= ScoreHeading(stats, data, i) <= 1.23
  {
    var sequential := SequentialNumbers(Detections(Texts(data)), stats.sequences);
    ScoreAtMost(stats, data[i], FirstIndex(data, data[i]), sequential);
  }

  lemma ScoreOfAtMost(stats: Stats, h: Fragment, idx: nat, sequential: set<nat>, r: Reading)
    requires SaneStats(stats) && r.contentScore <= 1.05
    ensures ScoreOf(stats, h, idx, sequential, r) <= 1.23
  {
    var nc := |stats.sizeClusters|;
    if nc > 1 {
      var rank: int := if h.fontSize in stats.sizeRank then stats.sizeRank[h.fontSize] else nc - 1;
      UpperFraction(nc - 1 - rank, nc - 1);
    }
    var f := FeaturesOf(stats, h, idx, sequential, r);
    assert f.fontSizeCluster <= 0.20;
    assert f.fontSizeNorm <= 0.05;
    assert f.numberingBonus <= 0.30;
    assert f.indentPenalty <= 0.0;
    assert FeatureSum(f) <= 1.18;
  }
}
