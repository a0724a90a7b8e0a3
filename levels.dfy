/** The title classifier's level assignment for outline candidates: five
    strategies (numbering, formatting, semantics, indentation, document flow)
    each propose a level per candidate, and a weighted vote decides. */
module Levels {
  import opened Wrappers
  import opened PyStr
  import opened Records
  import opened Sorting
  import opened Numbering
  import opened Keywords
  import opened LayoutStats
  import opened TextPatterns
  import opened Title
  import opened Voting

  /** A strategy's proposals, keyed by candidate index. */
  type Assignments = map<nat, Level>

  /** The depth of a level: 1 for H1. */
  function Rank(l: Level): nat {
    match l
    case H1 => 1
    case H2 => 2
    case H3 => 3
  }

  // ---------------------------------------------------------------------
  // Recording proposals
  // ---------------------------------------------------------------------

  /** The proposals for the first `k` candidates, written in candidate order
      into a dict: where two candidates share an index the later one wins. */
  function AssignUpTo(cands: seq<Scored>, levels: seq<Level>, k: nat): (m: Assignments)
    requires k <= |cands| && k <= |levels|
  {
    if k == 0 then map[] else AssignUpTo(cands, levels, k - 1)[cands[k - 1].idx := levels[k - 1]]
  }

  /** Candidates with the same index are the same candidate, as for the
      scored headings, whose index is their position. */
  ghost predicate IdxDetermines(cands: seq<Scored>) {
    forall a, b :: a in cands && b in cands && a.idx == b.idx ==> a == b
  }

  /** The last of the first `k` candidates with index `idx`. */
  function LastAt(cands: seq<Scored>, idx: nat, k: nat): (j: nat)
    requires k <= |cands| && exists i :: 0 <= i < k && cands[i].idx == idx
    ensures j < k && cands[j].idx == idx && forall i :: j < i < k ==> cands[i].idx != idx
  {
    if cands[k - 1].idx == idx then k - 1 else LastAt(cands, idx, k - 1)
  }

  /** The dict holds exactly the candidates' indices, each with the level
      proposed for the last candidate carrying it. */
  lemma {:induction false} AssignUpToAt(cands: seq<Scored>, levels: seq<Level>, k: nat, idx: nat)
    requires k <= |cands| && k <= |levels|
    ensures idx in AssignUpTo(cands, levels, k) <==> exists i :: 0 <= i < k && cands[i].idx == idx
    ensures idx in AssignUpTo(cands, levels, k) ==>
              AssignUpTo(cands, levels, k)[idx] == levels[LastAt(cands, idx, k)]
  {
    if k > 0 {
      AssignUpToAt(cands, levels, k - 1, idx);
    }
  }

  /** Only the first `k` proposals are read. */
  lemma {:induction false} AssignUpToPrefix(cands: seq<Scored>, levels: seq<Level>, more: seq<Level>, k: nat)
    requires k <= |cands| && k <= |levels|
    ensures AssignUpTo(cands, levels + more, k) == AssignUpTo(cands, levels, k)
  {
    if k > 0 {
      AssignUpToPrefix(cands, levels, more, k - 1);
    }
  }

  /** When indices determine candidates, every candidate's index is assigned
      the level proposed at some position holding that candidate. */
  lemma AssignedAt(cands: seq<Scored>, levels: seq<Level>, c: Scored)
    requires |levels| == |cands| && IdxDetermines(cands) && c in cands
    ensures c.idx in AssignUpTo(cands, levels, |cands|)
    ensures exists j :: 0 <= j < |cands| && cands[j] == c &&
                        AssignUpTo(cands, levels, |cands|)[c.idx] == levels[j]
  {
    var i :| 0 <= i < |cands| && cands[i] == c;
    AssignUpToAt(cands, levels, |cands|, c.idx);
    var j := LastAt(cands, c.idx, |cands|);
    assert cands[j] in cands;
  }

  /** One proposal per candidate from a function of its heading. */
  function Per(cands: seq<Scored>, f: Fragment -> Level): (r: seq<Level>)
    ensures |r| == |cands| && forall j :: 0 <= j < |cands| ==> r[j] == f(cands[j].heading)
  {
    seq(|cands|, j requires 0 <= j < |cands| => f(cands[j].heading))
  }

  /** A strategy that looks at each candidate on its own proposes, for every
      candidate, its own level. */
  lemma PerCandidate(cands: seq<Scored>, f: Fragment -> Level, c: Scored)
    requires IdxDetermines(cands) && c in cands
    ensures c.idx in AssignUpTo(cands, Per(cands, f), |cands|)
    ensures AssignUpTo(cands, Per(cands, f), |cands|)[c.idx] == f(c.heading)
  {
    AssignedAt(cands, Per(cands, f), c);
  }

  /** The loop of the per-candidate strategies: for each candidate in turn,
      `assignments[idx] = level`. */
  method AssignEach(cands: seq<Scored>, f: Fragment -> Level) returns (assignments: Assignments)
    ensures assignments == AssignUpTo(cands, Per(cands, f), |cands|)
  {
    assignments := map[];
    var i := 0;
    while i < |cands|
      invariant 0 <= i <= |cands|
      invariant assignments == AssignUpTo(cands, Per(cands, f), i)
    {
      assignments := assignments[cands[i].idx := f(cands[i].heading)];
      i := i + 1;
    }
  }

  /** The candidates' texts and their numbering patterns. */
  function CandidateTexts(cands: seq<Scored>): (r: seq<string>)
    ensures |r| == |cands| && forall j :: 0 <= j < |cands| ==> r[j] == cands[j].heading.text
  {
    seq(|cands|, j requires 0 <= j < |cands| => cands[j].heading.text)
  }

  function CandidateDetections(cands: seq<Scored>): (r: seq<Detection>)
    ensures |r| == |cands|
    ensures forall j :: 0 <= j < |cands| ==> r[j] == DetectNumbering(cands[j].heading.text)
  {
    Detections(CandidateTexts(cands))
  }

  // ---------------------------------------------------------------------
  // Strategy 1: numbering
  // ---------------------------------------------------------------------

  const ChapterIndicators: seq<string> := [
    "introduction", "overview", "background", "methodology",
    "results", "conclusion", "references", "appendix"]

  /** Some character after the first two is a digit (`text[2:]`). */
  predicate DigitAfterSecond(text: string) {
    exists i :: 2 <= i < |text| && IsPyDigit(text[i])
  }

  /** `_is_likely_main_chapter(text, number)` */
  predicate LikelyMainChapter(text: string, number: nat) {
    ContainsAny(Lower(text), ChapterIndicators)
    || number <= 5
    || (|Split(text)| <= 8 && !DigitAfterSecond(text))
  }

  /** A simple number of at most ten that looks like a main chapter. */
  predicate SimpleChapter(d: Detection, text: string) {
    d.pattern == SimpleNumber && d.number <= 10 && LikelyMainChapter(text, d.number)
  }

  /** The numbering strategy's level for one candidate given the chapter
      numbers recorded so far. For a sub-section the source splits the
      stripped text at `.`: the pattern guarantees at least two parts, the
      first the leading digits (`d.number`) and the second starting with a
      digit, so the parse never raises. */
  function NumberingLevel(chapters: map<nat, Level>, d: Detection, text: string): Level {
    match d.pattern
    case MainChapter => H1
    case Subsection => if d.number in chapters && chapters[d.number] != H1 then H3 else H2
    case Subsubsection => H3
    case SimpleNumber => if SimpleChapter(d, text) then H1 else H2
    case _ => ContentLevel(text)
  }

  /** Main chapters and chapter-like simple numbers record their number as H1. */
  function RecordChapter(chapters: map<nat, Level>, d: Detection, text: string): map<nat, Level> {
    if d.pattern == MainChapter || SimpleChapter(d, text) then chapters[d.number := H1] else chapters
  }

  /** The numbering strategy after `k` candidates: their levels and the
      recorded chapter numbers. */
  datatype NumberingRun = NumberingRun(levels: seq<Level>, chapters: map<nat, Level>)

  function NumberingUpTo(cands: seq<Scored>, dets: seq<Detection>, k: nat): (r: NumberingRun)
    requires k <= |cands| && k <= |dets|
    ensures |r.levels| == k
  {
    if k == 0 then NumberingRun([], map[])
    else
      var prev := NumberingUpTo(cands, dets, k - 1);
      var text := cands[k - 1].heading.text;
      NumberingRun(prev.levels + [NumberingLevel(prev.chapters, dets[k - 1], text)],
                   RecordChapter(prev.chapters, dets[k - 1], text))
  }

  /** `_assign_by_advanced_numbering(candidates)` */
  function NumberingAssignments(cands: seq<Scored>): Assignments {
    var dets := CandidateDetections(cands);
    AssignUpTo(cands, NumberingUpTo(cands, dets, |cands|).levels, |cands|)
  }

  /** The level numbering alone suggests, without any recorded chapters. */
  function NumberedLevel(d: Detection, text: string): Level {
    match d.pattern
    case MainChapter => H1
    case Subsection => H2
    case Subsubsection => H3
    case SimpleNumber => if SimpleChapter(d, text) then H1 else H2
    case _ => ContentLevel(text)
  }

  /** Only H1 is ever recorded, so the chapter bookkeeping never changes a
      level: every candidate gets the level its own numbering suggests, and a
      sub-section is always H2. */
  lemma {:induction false} NumberingIsStateless(cands: seq<Scored>, dets: seq<Detection>, k: nat)
    requires k <= |cands| && k <= |dets|
    ensures forall n :: n in NumberingUpTo(cands, dets, k).chapters ==>
                        NumberingUpTo(cands, dets, k).chapters[n] == H1
    ensures forall j :: 0 <= j < k ==>
              NumberingUpTo(cands, dets, k).levels[j] == NumberedLevel(dets[j], cands[j].heading.text)
  {
    if k > 0 {
      NumberingIsStateless(cands, dets, k - 1);
    }
  }

  /** Every candidate is assigned the level its own numbering suggests. */
  lemma NumberingLevelOf(cands: seq<Scored>, c: Scored)
    requires IdxDetermines(cands) && c in cands
    ensures c.idx in NumberingAssignments(cands)
    ensures NumberingAssignments(cands)[c.idx] == NumberedLevel(DetectNumbering(c.heading.text), c.heading.text)
  {
    var dets := CandidateDetections(cands);
    var levels := NumberingUpTo(cands, dets, |cands|).levels;
    NumberingIsStateless(cands, dets, |cands|);
    AssignedAt(cands, levels, c);
  }

  /** `_assign_by_advanced_numbering(candidates)`, with the numbering
      pattern of every candidate detected up front. */
  method AssignByNumbering(cands: seq<Scored>) returns (assignments: Assignments)
    ensures assignments == NumberingAssignments(cands)
  {
    var dets := CandidateDetections(cands);
    assignments := NumberingLoop(cands, dets);
  }

  /** The loop of `_assign_by_advanced_numbering`, reading each candidate's
      numbering pattern from `dets`. */
  method NumberingLoop(cands: seq<Scored>, dets: seq<Detection>) returns (assignments: Assignments)
    requires |dets| == |cands|
    ensures assignments == AssignUpTo(cands, NumberingUpTo(cands, dets, |cands|).levels, |cands|)
  {
    assignments := map[];
    var chapters: map<nat, Level> := map[];
    ghost var levels: seq<Level> := [];
    var i := 0;
    while i < |cands|
      invariant 0 <= i <= |cands|
      invariant NumberingUpTo(cands, dets, i) == NumberingRun(levels, chapters)
      invariant assignments == AssignUpTo(cands, levels, i)
    {
      var level;
      level, chapters := NumberingStep(chapters, dets[i], cands[i].heading.text);
      assignments := assignments[cands[i].idx := level];
      AssignUpToPrefix(cands, levels, [level], i);
      levels := levels + [level];
      i := i + 1;
    }
  }

  /** One turn of the numbering loop: the level of a candidate with detection
      `d`, and the chapter numbers after it. */
  method NumberingStep(chapters: map<nat, Level>, d: Detection, text: string)
    returns (level: Level, next: map<nat, Level>)
    ensures level == NumberingLevel(chapters, d, text)
    ensures next == RecordChapter(chapters, d, text)
  {
    next := chapters;
    match d.pattern {
      case MainChapter =>
        level := H1;
        next := chapters[d.number := H1];
      case Subsection =>
        if d.number in chapters {
          if chapters[d.number] == H1 {
            level := H2;
          } else {
            level := H3;
          }
        } else {
          level := H2;
        }
      case Subsubsection =>
        level := H3;
      case SimpleNumber =>
        if d.number <= 10 && LikelyMainChapter(text, d.number) {
          level := H1;
          next := chapters[d.number := H1];
        } else {
          level := H2;
        }
      case _ =>
        level := ContentLevel(text);
    }
  }

  // ---------------------------------------------------------------------
  // Strategy 2: formatting
  // ---------------------------------------------------------------------

  /** The candidates' font sizes. */
  function Sizes(cands: seq<Scored>): (r: seq<real>)
    ensures |r| == |cands| && forall j :: 0 <= j < |cands| ==> r[j] == cands[j].heading.fontSize
  {
    seq(|cands|, j requires 0 <= j < |cands| => cands[j].heading.fontSize)
  }

  /** The formatting level of a heading against the distinct sizes `u` in
      descending order: with one size, doc titles and bold text are H1; with
      more, the largest size is H1, the second H2 (promoted to H1 when bold)
      and the rest H3. Non-bold text of the largest tier below the largest
      size would be demoted, which cannot happen. A doc title is always H1. */
  function FormattingLevel(u: seq<real>, h: Fragment): Level {
    if |u| <= 1 then
      if h.kind == "doc_title" || h.bold then H1 else H2
    else
      var large := u[0];
      var medium := u[1];
      var base := if h.fontSize >= large then H1 else if h.fontSize >= medium then H2 else H3;
      var adjusted :=
        if h.bold && base == H2 then H1
        else if !h.bold && base == H1 && h.fontSize < large then H2
        else base;
      if h.kind == "doc_title" then H1 else adjusted
  }

  /** `_assign_by_advanced_formatting(candidates)` */
  function FormattingAssignments(cands: seq<Scored>): Assignments {
    var u := DistinctDesc(Sizes(cands));
    AssignUpTo(cands, Per(cands, h => FormattingLevel(u, h)), |cands|)
  }

  /** For a size among the distinct sizes: the largest size, a bold
      second-largest size and doc titles are H1; H3 is exactly the text in
      neither of the two largest sizes that is no doc title. */
  lemma FormattingTiers(u: seq<real>, h: Fragment)
    requires StrictlyDecreasing(u) && h.fontSize in u
    ensures |u| <= 1 ==> (FormattingLevel(u, h) == H1 <==> h.kind == "doc_title" || h.bold)
    ensures |u| <= 1 ==> FormattingLevel(u, h) != H3
    ensures |u| >= 2 ==>
              (FormattingLevel(u, h) == H1 <==>
                 h.kind == "doc_title" || h.fontSize == u[0] || (h.bold && h.fontSize == u[1]))
    ensures |u| >= 2 ==>
              (FormattingLevel(u, h) == H3 <==>
                 h.kind != "doc_title" && h.fontSize != u[0] && h.fontSize != u[1])
  {
    var k :| 0 <= k < |u| && u[k] == h.fontSize;
    if k >= 2 {
      assert u[k] < u[1] < u[0];
    }
  }

  /** Every candidate's formatting level is read against the sizes of all
      candidates, its own among them. */
  lemma FormattingLevelOf(cands: seq<Scored>, c: Scored)
    requires IdxDetermines(cands) && c in cands
    ensures var u := DistinctDesc(Sizes(cands));
            c.idx in FormattingAssignments(cands) &&
            FormattingAssignments(cands)[c.idx] == FormattingLevel(u, c.heading) &&
            StrictlyDecreasing(u) && c.heading.fontSize in u
  {
    var u := DistinctDesc(Sizes(cands));
    PerCandidate(cands, h => FormattingLevel(u, h), c);
    var j :| 0 <= j < |cands| && cands[j] == c;
    assert Sizes(cands)[j] == c.heading.fontSize;
  }

  /** The formatting strategy as its loop over the candidates. */
  method AssignByFormatting(cands: seq<Scored>) returns (assignments: Assignments)
    ensures assignments == FormattingAssignments(cands)
  {
    var u := DistinctDesc(Sizes(cands));
    assignments := AssignEach(cands, h => FormattingLevel(u, h));
  }

  // ---------------------------------------------------------------------
  // Strategy 3: semantics
  // ---------------------------------------------------------------------

  const SemanticMajor: seq<string> := [
    "introduction", "overview", "conclusion", "references", "acknowledgements", "abstract"]

  const SemanticSub: seq<string> := [
    "intended audience", "learning objectives", "entry requirements", "business outcomes"]

  /** Major document sections are H1, a few subsection phrases H2, the rest
      takes the content analysis's level. */
  function SemanticLevel(h: Fragment): Level {
    var tl := Lower(h.text);
    if ContainsAny(tl, SemanticMajor) then H1
    else if ContainsAny(tl, SemanticSub) then H2
    else ContentLevel(h.text)
  }

  /** `_assign_by_semantic_analysis(candidates)` */
  function SemanticAssignments(cands: seq<Scored>): Assignments {
    AssignUpTo(cands, Per(cands, SemanticLevel), |cands|)
  }

  /** Unless it names a subsection phrase, the semantic level is never
      deeper than the content analysis's; naming a major section makes it H1. */
  lemma SemanticRefinesContent(h: Fragment)
    ensures !ContainsAny(Lower(h.text), SemanticSub) ==>
              Rank(SemanticLevel(h)) <= Rank(ContentLevel(h.text))
    ensures ContainsAny(Lower(h.text), SemanticMajor) ==> SemanticLevel(h) == H1
    ensures SemanticLevel(h) == H3 ==> ContentLevel(h.text) == H3
  {
  }

  /** The semantic strategy as its loop over the candidates. */
  method AssignBySemantics(cands: seq<Scored>) returns (assignments: Assignments)
    ensures assignments == SemanticAssignments(cands)
  {
    assignments := AssignEach(cands, SemanticLevel);
  }

  // ---------------------------------------------------------------------
  // Strategy 4: indentation
  // ---------------------------------------------------------------------

  /** `indent_levels.get(x0, 0)` */
  function IndentOf(indent: map<real, int>, x: real): int {
    if x in indent then indent[x] else 0
  }

  /** Unindented headings are H1 when at least as wide as three quarters of
      the headings and H2 otherwise; one level in is H2, deeper H3. */
  function SpatialLevel(indent: map<real, int>, widths: Percentiles, h: Fragment): Level {
    var level := IndentOf(indent, X0(h));
    if level == 0 then (if Width(h) >= widths.p75 then H1 else H2)
    else if level == 1 then H2
    else H3
  }

  /** `_assign_by_spatial_structure(candidates)` */
  function SpatialAssignments(cands: seq<Scored>, indent: map<real, int>, widths: Percentiles): Assignments {
    AssignUpTo(cands, Per(cands, h => SpatialLevel(indent, widths, h)), |cands|)
  }

  /** A heading further in never gets a shallower level. */
  lemma SpatialDeeperIndent(indent: map<real, int>, widths: Percentiles, a: Fragment, b: Fragment)
    requires 0 <= IndentOf(indent, X0(a)) < IndentOf(indent, X0(b))
    ensures Rank(SpatialLevel(indent, widths, a)) <= Rank(SpatialLevel(indent, widths, b))
  {
  }

  /** With the indent levels of the headings' left edges, a heading at the
      leftmost edge is never H3, and is H1 exactly when its width reaches the
      75th percentile. */
  lemma SpatialLeftmost(xs: seq<real>, widths: Percentiles, h: Fragment)
    requires xs != [] && X0(h) == DistinctAsc(xs)[0]
    ensures SpatialLevel(IndentLevels(xs), widths, h) != H3
    ensures SpatialLevel(IndentLevels(xs), widths, h) == H1 <==> Width(h) >= widths.p75
  {
    IndentSmallestIsZero(xs);
  }

  /** The spatial strategy as its loop over the candidates. */
  method AssignBySpatialStructure(cands: seq<Scored>, indent: map<real, int>, widths: Percentiles)
    returns (assignments: Assignments)
    ensures assignments == SpatialAssignments(cands, indent, widths)
  {
    assignments := AssignEach(cands, h => SpatialLevel(indent, widths, h));
  }

  // ---------------------------------------------------------------------
  // Strategy 5: document flow
  // ---------------------------------------------------------------------

  /** Reading order: page, then top edge (0 without a box). */
  function FlowKey(c: Scored): seq<real> { [c.heading.page as real, Y0(c.heading)] }

  /** The flow strategy after `k` candidates in reading order: their levels,
      the previous level and the section depth. */
  datatype FlowRun = FlowRun(levels: seq<Level>, prev: Option<Level>, depth: nat)

  /** The level of the `i`-th candidate in reading order and the new depth:
      main chapters and the first heading are H1, sub-sections H2; otherwise
      after H1 comes H2 while the depth is below 3, after H2 comes H2, and
      after anything else H3. */
  function FlowStep(r: FlowRun, i: nat, d: Detection): (Level, nat) {
    if d.pattern == MainChapter then (H1, 1)
    else if d.pattern == Subsection then (H2, 2)
    else if i == 0 then (H1, 1)
    else if r.prev == Some(H1) then (if r.depth < 3 then H2 else H1, r.depth)
    else if r.prev == Some(H2) then (H2, r.depth)
    else (H3, r.depth)
  }

  function FlowUpTo(sorted: seq<Scored>, dets: seq<Detection>, k: nat): (r: FlowRun)
    requires k <= |sorted| && k <= |dets|
    ensures |r.levels| == k
  {
    if k == 0 then FlowRun([], None, 0)
    else
      var prev := FlowUpTo(sorted, dets, k - 1);
      var step := FlowStep(prev, k - 1, dets[k - 1]);
      FlowRun(prev.levels + [step.0], Some(step.0), step.1)
  }

  /** `_assign_by_document_flow(candidates)` */
  function FlowAssignments(cands: seq<Scored>): Assignments {
    var sorted := SortBy(cands, FlowKey);
    AssignUpTo(sorted, FlowUpTo(sorted, CandidateDetections(sorted), |sorted|).levels, |sorted|)
  }

  /** The depth stays below 3 and the previous level is H1 or H2, so the
      flow never proposes H3; main chapters get H1 and sub-sections H2. */
  lemma {:induction false} FlowShape(sorted: seq<Scored>, dets: seq<Detection>, k: nat)
    requires k <= |sorted| && k <= |dets|
    ensures var r := FlowUpTo(sorted, dets, k);
            r.depth < 3 && (k > 0 ==> r.prev in {Some(H1), Some(H2)})
    ensures forall j :: 0 <= j < k ==> FlowUpTo(sorted, dets, k).levels[j] != H3
    ensures forall j :: 0 <= j < k && dets[j].pattern == MainChapter ==>
              FlowUpTo(sorted, dets, k).levels[j] == H1
    ensures forall j :: 0 <= j < k && dets[j].pattern == Subsection ==>
              FlowUpTo(sorted, dets, k).levels[j] == H2
  {
    if k > 0 {
      FlowShape(sorted, dets, k - 1);
    }
  }

  /** Every candidate gets a flow level other than H3: H1 for a main
      chapter, H2 for a sub-section. */
  lemma FlowLevelOf(cands: seq<Scored>, c: Scored)
    requires IdxDetermines(cands) && c in cands
    ensures c.idx in FlowAssignments(cands)
    ensures FlowAssignments(cands)[c.idx] != H3
    ensures DetectNumbering(c.heading.text).pattern == MainChapter ==> FlowAssignments(cands)[c.idx] == H1
    ensures DetectNumbering(c.heading.text).pattern == Subsection ==> FlowAssignments(cands)[c.idx] == H2
  {
    var sorted := SortBy(cands, FlowKey);
    var dets := CandidateDetections(sorted);
    assert forall x :: x in sorted <==> x in cands by {
      forall x ensures x in sorted <==> x in cands {
        assert x in sorted <==> x in multiset(sorted);
        assert x in cands <==> x in multiset(cands);
      }
    }
    FlowShape(sorted, dets, |sorted|);
    AssignedAt(sorted, FlowUpTo(sorted, dets, |sorted|).levels, c);
  }

  /** `_assign_by_document_flow(candidates)`: the candidates in reading
      order, with their numbering patterns detected up front. */
  method AssignByFlow(cands: seq<Scored>) returns (assignments: Assignments)
    ensures assignments == FlowAssignments(cands)
  {
    var sorted := SortBy(cands, FlowKey);
    var dets := CandidateDetections(sorted);
    assignments := FlowLoop(sorted, dets);
  }

  /** The loop of `_assign_by_document_flow` over the candidates in reading
      order, reading each one's numbering pattern from `dets`. */
  method FlowLoop(sorted: seq<Scored>, dets: seq<Detection>) returns (assignments: Assignments)
    requires |dets| == |sorted|
    ensures assignments == AssignUpTo(sorted, FlowUpTo(sorted, dets, |sorted|).levels, |sorted|)
  {
    assignments := map[];
    var prev: Option<Level> := None;
    var depth: nat := 0;
    ghost var levels: seq<Level> := [];
    var i := 0;
    while i < |sorted|
      invariant 0 <= i <= |sorted|
      invariant FlowUpTo(sorted, dets, i) == FlowRun(levels, prev, depth)
      invariant assignments == AssignUpTo(sorted, levels, i)
    {
      var d := dets[i];
      var current: Level;
      if d.pattern == MainChapter {
        current := H1;
        depth := 1;
      } else if d.pattern == Subsection {
        current := H2;
        depth := 2;
      } else if i == 0 {
        current := H1;
        depth := 1;
      } else if prev == Some(H1) {
        current := if depth < 3 then H2 else H1;
      } else if prev == Some(H2) {
        current := H2;
      } else {
        current := H3;
      }
      assignments := assignments[sorted[i].idx := current];
      prev := Some(current);
      AssignUpToPrefix(sorted, levels, [current], i);
      levels := levels + [current];
      i := i + 1;
    }
  }

  // ---------------------------------------------------------------------
  // Combining the strategies
  // ---------------------------------------------------------------------

  const BoostMajor: seq<string> := ["introduction", "overview", "references"]

  const BoostSub: seq<string> := ["intended audience", "learning objectives"]

  /** Non-negative weights. */
  predicate ValidWeights(strategies: seq<(Assignments, real)>) {
    forall i :: 0 <= i < |strategies| ==> strategies[i].1 >= 0.0
  }

  /** The strategies' votes for candidate `idx`, added in strategy order to
      the counter `acc`. */
  function StrategyVotes(strategies: seq<(Assignments, real)>, idx: nat, acc: Votes): Votes
    decreases |strategies|
  {
    if strategies == [] then acc
    else
      var assignments := strategies[0].0;
      var next := if idx in assignments then AddVote(acc, assignments[idx], strategies[0].1) else acc;
      StrategyVotes(strategies[1..], idx, next)
  }

  /** The total weight of the strategies proposing `l` for candidate `idx`. */
  function WeightFor(strategies: seq<(Assignments, real)>, idx: nat, l: Level): real
    decreases |strategies|
  {
    if strategies == [] then 0.0
    else
      (if idx in strategies[0].0 && strategies[0].0[idx] == l then strategies[0].1 else 0.0)
      + WeightFor(strategies[1..], idx, l)
  }

  /** The strategies' votes add, for every level, the total weight proposing
      it; the counter keeps one entry per level and no negative count. */
  lemma {:induction false} StrategyTally(strategies: seq<(Assignments, real)>, idx: nat, acc: Votes, l: Level)
    requires ValidWeights(strategies)
    ensures Tally(StrategyVotes(strategies, idx, acc), l) == Tally(acc, l) + WeightFor(strategies, idx, l)
    ensures DistinctLevels(acc) && NonNegative(acc) ==>
              DistinctLevels(StrategyVotes(strategies, idx, acc)) && NonNegative(StrategyVotes(strategies, idx, acc))
    decreases |strategies|
  {
    if strategies != [] {
      var assignments := strategies[0].0;
      var next := if idx in assignments then AddVote(acc, assignments[idx], strategies[0].1) else acc;
      assert strategies[0] in strategies;
      if idx in assignments {
        TallyAdd(acc, assignments[idx], strategies[0].1, l);
      }
      StrategyTally(strategies[1..], idx, next, l);
    }
  }

  /** The counter for one candidate: the strategies' votes, then 3 for H1 for
      a main chapter or else 2 for H2 for a sub-section, then 1.5 for H1 when
      the text names the introduction, overview or references, or else 1 for
      H2 when it names the intended audience or learning objectives. */
  function CandidateVotes(strategies: seq<(Assignments, real)>, c: Scored, d: Detection): Votes {
    var votes := StrategyVotes(strategies, c.idx, []);
    var numbered :=
      if d.pattern == MainChapter then AddVote(votes, H1, 3.0)
      else if d.pattern == Subsection then AddVote(votes, H2, 2.0)
      else votes;
    var tl := Lower(c.heading.text);
    if ContainsAny(tl, BoostMajor) then AddVote(numbered, H1, 1.5)
    else if ContainsAny(tl, BoostSub) then AddVote(numbered, H2, 1.0)
    else numbered
  }

  /** The counts of one candidate's counter: the strategies' weights plus
      the boosts. */
  lemma CandidateTally(strategies: seq<(Assignments, real)>, c: Scored, d: Detection, l: Level)
    requires ValidWeights(strategies)
    ensures var tl := Lower(c.heading.text);
            Tally(CandidateVotes(strategies, c, d), l) ==
              WeightFor(strategies, c.idx, l)
              + (if d.pattern == MainChapter && l == H1 then 3.0
                 else if d.pattern == Subsection && l == H2 then 2.0 else 0.0)
              + (if ContainsAny(tl, BoostMajor) then (if l == H1 then 1.5 else 0.0)
                 else if ContainsAny(tl, BoostSub) && l == H2 then 1.0 else 0.0)
    ensures DistinctLevels(CandidateVotes(strategies, c, d)) && NonNegative(CandidateVotes(strategies, c, d))
  {
    var votes := StrategyVotes(strategies, c.idx, []);
    StrategyTally(strategies, c.idx, [], l);
    var numbered :=
      if d.pattern == MainChapter then AddVote(votes, H1, 3.0)
      else if d.pattern == Subsection then AddVote(votes, H2, 2.0)
      else votes;
    if d.pattern == MainChapter {
      TallyAdd(votes, H1, 3.0, l);
    } else if d.pattern == Subsection {
      TallyAdd(votes, H2, 2.0, l);
    }
    var tl := Lower(c.heading.text);
    if ContainsAny(tl, BoostMajor) {
      TallyAdd(numbered, H1, 1.5, l);
    } else if ContainsAny(tl, BoostSub) {
      TallyAdd(numbered, H2, 1.0, l);
    }
  }

  /** The level of one candidate: the most common level of its counter, the
      first among equals, or from its score when no vote was cast. */
  function CombinedLevel(strategies: seq<(Assignments, real)>, c: Scored, d: Detection): Level {
    var votes := CandidateVotes(strategies, c, d);
    if votes != [] then FirstMax(votes).0
    else if c.score > 0.7 then H1
    else if c.score > 0.4 then H2
    else H3
  }

  /** When the counter has votes, the chosen level has the greatest count. */
  lemma CombinedLevelIsHeaviest(strategies: seq<(Assignments, real)>, c: Scored, d: Detection, m: Level)
    requires ValidWeights(strategies) && CandidateVotes(strategies, c, d) != []
    ensures Tally(CandidateVotes(strategies, c, d), m) <=
            Tally(CandidateVotes(strategies, c, d), CombinedLevel(strategies, c, d))
  {
    var v := CandidateVotes(strategies, c, d);
    CandidateTally(strategies, c, d, m);
    FirstMaxSpec(v);
    var k :| 0 <= k < |v| && v[k] == FirstMax(v) && (forall i :: 0 <= i < |v| ==> v[i].1 <= v[k].1);
    TallyOfEntry(v, k);
    if m in LevelsOf(v) {
      LevelHasEntry(v, m);
      var i :| 0 <= i < |v| && v[i].0 == m;
      TallyOfEntry(v, i);
    } else {
      TallyAbsent(v, m);
    }
  }

  /** A level whose count beats every other level's is chosen. */
  lemma CombinedStrictWinner(strategies: seq<(Assignments, real)>, c: Scored, d: Detection, l: Level)
    requires ValidWeights(strategies)
    requires forall m :: m != l ==>
               Tally(CandidateVotes(strategies, c, d), l) > Tally(CandidateVotes(strategies, c, d), m)
    ensures CombinedLevel(strategies, c, d) == l
  {
    var v := CandidateVotes(strategies, c, d);
    CandidateTally(strategies, c, d, l);
    var other := if l == H1 then H2 else H1;
    assert Tally(v, l) > Tally(v, other);
    StrictWinner(v, l);
  }

  /** The five strategies with their weights, in voting order. */
  function Weighted(numbering: Assignments, formatting: Assignments, semantic: Assignments,
                    spatial: Assignments, flow: Assignments): (r: seq<(Assignments, real)>)
    ensures ValidWeights(r)
  {
    [(numbering, 4.0), (formatting, 2.5), (semantic, 2.0), (spatial, 1.5), (flow, 1.0)]
  }

  /** The weight of each level for one candidate, strategy by strategy. */
  lemma WeightedFor(numbering: Assignments, formatting: Assignments, semantic: Assignments,
                    spatial: Assignments, flow: Assignments, idx: nat, l: Level)
    ensures WeightFor(Weighted(numbering, formatting, semantic, spatial, flow), idx, l) ==
              (if idx in numbering && numbering[idx] == l then 4.0 else 0.0)
              + (if idx in formatting && formatting[idx] == l then 2.5 else 0.0)
              + (if idx in semantic && semantic[idx] == l then 2.0 else 0.0)
              + (if idx in spatial && spatial[idx] == l then 1.5 else 0.0)
              + (if idx in flow && flow[idx] == l then 1.0 else 0.0)
  {
    var w := Weighted(numbering, formatting, semantic, spatial, flow);
    var w1 := w[1..];
    var w2 := w1[1..];
    var w3 := w2[1..];
    var w4 := w3[1..];
    assert w1 == [(formatting, 2.5), (semantic, 2.0), (spatial, 1.5), (flow, 1.0)];
    assert w2 == [(semantic, 2.0), (spatial, 1.5), (flow, 1.0)];
    assert w3 == [(spatial, 1.5), (flow, 1.0)];
    assert w4 == [(flow, 1.0)];
    assert WeightFor(w4[1..], idx, l) == 0.0;
    assert WeightFor(w4, idx, l) == (if idx in flow && flow[idx] == l then 1.0 else 0.0);
    assert WeightFor(w3, idx, l) == (if idx in spatial && spatial[idx] == l then 1.5 else 0.0) + WeightFor(w4, idx, l);
    assert WeightFor(w2, idx, l) == (if idx in semantic && semantic[idx] == l then 2.0 else 0.0) + WeightFor(w3, idx, l);
    assert WeightFor(w1, idx, l) == (if idx in formatting && formatting[idx] == l then 2.5 else 0.0) + WeightFor(w2, idx, l);
  }

  /** A main chapter that numbering and flow both propose as H1 is H1: it
      gets at least 4 + 1 + 3 for H1 and at most 2.5 + 2 + 1.5 + 1 for any
      other level. */
  lemma MainChapterVote(numbering: Assignments, formatting: Assignments, semantic: Assignments,
                        spatial: Assignments, flow: Assignments, c: Scored, d: Detection)
    requires d.pattern == MainChapter
    requires c.idx in numbering && numbering[c.idx] == H1
    requires c.idx in flow && flow[c.idx] == H1
    ensures CombinedLevel(Weighted(numbering, formatting, semantic, spatial, flow), c, d) == H1
  {
    var w := Weighted(numbering, formatting, semantic, spatial, flow);
    forall m | m != H1
      ensures Tally(CandidateVotes(w, c, d), H1) > Tally(CandidateVotes(w, c, d), m)
    {
      WeightedFor(numbering, formatting, semantic, spatial, flow, c.idx, H1);
      WeightedFor(numbering, formatting, semantic, spatial, flow, c.idx, m);
      CandidateTally(w, c, d, H1);
      CandidateTally(w, c, d, m);
    }
    CombinedStrictWinner(w, c, d, H1);
  }

  /** A sub-section that numbering and flow both propose as H2 is H2 unless
      its text names the introduction, overview or references: it gets at
      least 4 + 1 + 2 for H2 and at most 2.5 + 2 + 1.5 for any other level. */
  lemma SubsectionVote(numbering: Assignments, formatting: Assignments, semantic: Assignments,
                       spatial: Assignments, flow: Assignments, c: Scored, d: Detection)
    requires d.pattern == Subsection
    requires c.idx in numbering && numbering[c.idx] == H2
    requires c.idx in flow && flow[c.idx] == H2
    requires !ContainsAny(Lower(c.heading.text), BoostMajor)
    ensures CombinedLevel(Weighted(numbering, formatting, semantic, spatial, flow), c, d) == H2
  {
    var w := Weighted(numbering, formatting, semantic, spatial, flow);
    forall m | m != H2
      ensures Tally(CandidateVotes(w, c, d), H2) > Tally(CandidateVotes(w, c, d), m)
    {
      WeightedFor(numbering, formatting, semantic, spatial, flow, c.idx, H2);
      WeightedFor(numbering, formatting, semantic, spatial, flow, c.idx, m);
      CandidateTally(w, c, d, H2);
      CandidateTally(w, c, d, m);
    }
    CombinedStrictWinner(w, c, d, H2);
  }

  // ---------------------------------------------------------------------
  // The level assignment
  // ---------------------------------------------------------------------

  /** The five strategies' proposals for the candidates, weighted. */
  function StrategiesFor(cands: seq<Scored>, indent: map<real, int>, widths: Percentiles): (r: seq<(Assignments, real)>)
    ensures ValidWeights(r)
  {
    Weighted(NumberingAssignments(cands), FormattingAssignments(cands), SemanticAssignments(cands),
             SpatialAssignments(cands, indent, widths), FlowAssignments(cands))
  }

  /** `_combine_assignment_strategies(candidates, strategies)`, reading each
      candidate's numbering pattern from `dets`. */
  function Combined(cands: seq<Scored>, dets: seq<Detection>, strategies: seq<(Assignments, real)>): (r: seq<(Scored, Level)>)
    requires |dets| == |cands|
    ensures |r| == |cands|
    ensures forall j :: 0 <= j < |cands| ==> r[j] == (cands[j], CombinedLevel(strategies, cands[j], dets[j]))
  {
    seq(|cands|, j requires 0 <= j < |cands| => (cands[j], CombinedLevel(strategies, cands[j], dets[j])))
  }

  /** `_assign_hierarchical_levels_advanced(candidates)`: every candidate in
      order with its level. */
  function AssignLevels(cands: seq<Scored>, indent: map<real, int>, widths: Percentiles): (r: seq<(Scored, Level)>)
    ensures |r| == |cands| && forall j :: 0 <= j < |cands| ==> r[j].0 == cands[j]
  {
    if cands == [] then []
    else Combined(cands, CandidateDetections(cands), StrategiesFor(cands, indent, widths))
  }

  /** Every candidate detected as a main chapter is H1. */
  lemma MainChapterIsH1(cands: seq<Scored>, indent: map<real, int>, widths: Percentiles, j: nat)
    requires IdxDetermines(cands) && j < |cands|
    requires DetectNumbering(cands[j].heading.text).pattern == MainChapter
    ensures AssignLevels(cands, indent, widths)[j].1 == H1
  {
    var c := cands[j];
    NumberingLevelOf(cands, c);
    FlowLevelOf(cands, c);
    MainChapterVote(NumberingAssignments(cands), FormattingAssignments(cands), SemanticAssignments(cands),
                    SpatialAssignments(cands, indent, widths), FlowAssignments(cands),
                    c, CandidateDetections(cands)[j]);
  }

  /** Every candidate detected as a sub-section is H2, unless its text names
      the introduction, overview or references. */
  lemma SubsectionIsH2(cands: seq<Scored>, indent: map<real, int>, widths: Percentiles, j: nat)
    requires IdxDetermines(cands) && j < |cands|
    requires DetectNumbering(cands[j].heading.text).pattern == Subsection
    requires !ContainsAny(Lower(cands[j].heading.text), BoostMajor)
    ensures AssignLevels(cands, indent, widths)[j].1 == H2
  {
    var c := cands[j];
    NumberingLevelOf(cands, c);
    FlowLevelOf(cands, c);
    SubsectionVote(NumberingAssignments(cands), FormattingAssignments(cands), SemanticAssignments(cands),
                   SpatialAssignments(cands, indent, widths), FlowAssignments(cands),
                   c, CandidateDetections(cands)[j]);
  }

  /** Every candidate gets at least the formatting vote, so the score
      fallback is never used: each candidate's level is one with the greatest
      weighted count. */
  lemma LevelIsHeaviest(cands: seq<Scored>, indent: map<real, int>, widths: Percentiles, j: nat, m: Level)
    requires IdxDetermines(cands) && j < |cands|
    ensures var strategies := StrategiesFor(cands, indent, widths);
            var votes := CandidateVotes(strategies, cands[j], DetectNumbering(cands[j].heading.text));
            votes != [] && Tally(votes, m) <= Tally(votes, AssignLevels(cands, indent, widths)[j].1)
  {
    var c := cands[j];
    var d := CandidateDetections(cands)[j];
    var strategies := StrategiesFor(cands, indent, widths);
    FormattingLevelOf(cands, c);
    var f := FormattingAssignments(cands)[c.idx];
    WeightedFor(NumberingAssignments(cands), FormattingAssignments(cands), SemanticAssignments(cands),
                SpatialAssignments(cands, indent, widths), FlowAssignments(cands), c.idx, f);
    CandidateTally(strategies, c, d, f);
    assert Tally(CandidateVotes(strategies, c, d), f) >= 2.5;
    CombinedLevelIsHeaviest(strategies, c, d, m);
  }

  /** The loop of `_combine_assignment_strategies`. */
  method CombineStrategies(cands: seq<Scored>, dets: seq<Detection>, strategies: seq<(Assignments, real)>)
    returns (result: seq<(Scored, Level)>)
    requires |dets| == |cands|
    ensures result == Combined(cands, dets, strategies)
  {
    result := [];
    var i := 0;
    while i < |cands|
      invariant 0 <= i <= |cands|
      invariant result == Combined(cands, dets, strategies)[..i]
    {
      result := result + [(cands[i], CombinedLevel(strategies, cands[i], dets[i]))];
      i := i + 1;
    }
  }

  /** `_assign_hierarchical_levels_advanced(candidates)`: the five strategies,
      then their weighted combination. */
  method AssignHierarchicalLevels(cands: seq<Scored>, indent: map<real, int>, widths: Percentiles)
    returns (result: seq<(Scored, Level)>)
    ensures result == AssignLevels(cands, indent, widths)
  {
    if cands == [] {
      return [];
    }
    var numbering := AssignByNumbering(cands);
    var formatting := AssignByFormatting(cands);
    var semantic := AssignBySemantics(cands);
    var spatial := AssignBySpatialStructure(cands, indent, widths);
    var flow := AssignByFlow(cands);
    var dets := CandidateDetections(cands);
    result := CombineStrategies(cands, dets, Weighted(numbering, formatting, semantic, spatial, flow));
  }
}
