/** The document-structure keyword tables of the title classifier and its
    content analysis, which turns a heading's text (and, when scoring, its
    position on the page) into a confidence score and a suggested level. */
module Keywords {
  import opened PyStr
  import opened Records
  import opened Wrappers

  const MajorSections: seq<string> := [
    "introduction", "overview", "background", "summary", "conclusion",
    "references", "bibliography", "appendix", "acknowledgements",
    "table of contents", "contents", "abstract", "executive summary",
    "methodology", "results", "discussion", "future work", "limitations",
    "revision history"]

  const StandardSections: seq<string> := [
    "objectives", "requirements", "scope", "approach", "implementation",
    "evaluation", "analysis", "findings", "recommendations", "next steps",
    "timeline", "budget", "resources", "deliverables", "milestones"]

  const SubsectionTerms: seq<string> := [
    "intended audience", "career paths", "learning objectives",
    "entry requirements", "structure", "duration", "keeping current",
    "business outcomes", "content", "trademarks", "documents", "web sites"]

  /** One category of the keyword table with the score and level it proposes. */
  datatype Category = Category(keys: seq<string>, score: real, level: Level)

  /** The categories in the table's order. */
  const Categories: seq<Category> := [
    Category(MajorSections, 0.9, H1),
    Category(StandardSections, 0.7, H1),
    Category(SubsectionTerms, 0.8, H2)]

  /** The organisational terms in the table's order, with their levels. */
  const HierarchyIndicators: seq<(string, Level)> := [
    ("chapter", H1), ("section", H1), ("part", H1), ("unit", H1), ("module", H1),
    ("lesson", H2), ("topic", H2), ("subtopic", H3), ("subsection", H3)]

  /** The score every matching organisational term proposes. */
  const IndicatorScore: real := 0.85

  /** The positional context the scorer passes in; the level strategies pass
      none, which reads as both flags false. */
  datatype PageContext = PageContext(isTopOfPage: bool, isFirstOnPage: bool)

  const NoContext: PageContext := PageContext(false, false)

  /** The keyword loop: each category whose keywords occur in `tl` replaces
      the running best when its score is strictly higher. */
  function KeywordPass(tl: string, cats: seq<Category>, best: (real, Level)): (real, Level)
  {
    if cats == [] then best
    else
      var c := cats[0];
      var next := if ContainsAny(tl, c.keys) && c.score > best.0 then (c.score, c.level) else best;
      KeywordPass(tl, cats[1..], next)
  }

  /** The indicator loop: each term that occurs in `tl` replaces the running
      best when 0.85 is strictly higher. */
  function IndicatorPass(tl: string, inds: seq<(string, Level)>, best: (real, Level)): (real, Level)
  {
    if inds == [] then best
    else
      var next := if Contains(tl, inds[0].0) && IndicatorScore > best.0 then (IndicatorScore, inds[0].1) else best;
      IndicatorPass(tl, inds[1..], next)
  }

  /** The fallback when no keyword or term matched, by word count. */
  function LengthHeuristic(wordCount: nat, isTop: bool): (real, Level) {
    if wordCount <= 2 then (0.3, H1)
    else if wordCount <= 5 then (0.5, if isTop then H1 else H2)
    else if wordCount <= 10 then (0.4, H2)
    else (0.2, H3)
  }

  /** Both loops over the tables, starting from `(0.0, 'H3')`. */
  function KeywordMatch(tl: string): (real, Level) {
    IndicatorPass(tl, HierarchyIndicators, KeywordPass(tl, Categories, (0.0, H3)))
  }

  /** `_classify_by_content_analysis(text, context)` */
  function ContentAnalysis(text: string, ctx: PageContext): (real, Level) {
    AnalyzeLowered(Strip(Lower(text)), ctx)
  }

  /** The content analysis of the lower-cased, stripped text `tl`. */
  function AnalyzeLowered(tl: string, ctx: PageContext): (real, Level) {
    var matched := KeywordMatch(tl);
    var base := if matched.0 == 0.0 then LengthHeuristic(|Split(tl)|, ctx.isTopOfPage) else matched;
    var first := if ctx.isFirstOnPage then 0.1 else 0.0;
    var top := if ctx.isTopOfPage then 0.05 else 0.0;
    (base.0 + first + top, base.1)
  }

  /** The level suggested without positional context, as the strategies ask. */
  function ContentLevel(text: string): Level {
    ContentAnalysis(text, NoContext).1
  }

  // ---------------------------------------------------------------------
  // The loops as the source runs them
  // ---------------------------------------------------------------------

  /** One keyword of `any(k in tl ...)` more: the match over `keys[..j + 1]`. */
  lemma ContainsAnyStep(tl: string, keys: seq<string>, j: nat)
    requires j < |keys|
    ensures ContainsAny(tl, keys[..j + 1]) <==> ContainsAny(tl, keys[..j]) || Contains(tl, keys[j])
  {
    if ContainsAny(tl, keys[..j + 1]) && !Contains(tl, keys[j]) {
      var k :| 0 <= k < j + 1 && Contains(tl, keys[..j + 1][k]);
      assert keys[..j][k] == keys[k];
    }
    if ContainsAny(tl, keys[..j]) {
      var k :| 0 <= k < j && Contains(tl, keys[..j][k]);
      assert keys[..j + 1][k] == keys[k];
    }
    if Contains(tl, keys[j]) {
      assert keys[..j + 1][j] == keys[j];
    }
  }

  /** The keyword loop of one category: every keyword `tl` contains offers
      the category's score, which replaces `best` when strictly higher. */
  method MatchCategory(tl: string, c: Category, best: (real, Level)) returns (r: (real, Level))
    ensures r == if ContainsAny(tl, c.keys) && c.score > best.0 then (c.score, c.level) else best
  {
    r := best;
    var j := 0;
    while j < |c.keys|
      invariant j <= |c.keys|
      invariant r == if ContainsAny(tl, c.keys[..j]) && c.score > best.0 then (c.score, c.level) else best
    {
      ContainsAnyStep(tl, c.keys, j);
      if Contains(tl, c.keys[j]) && c.score > r.0 {
        r := (c.score, c.level);
      }
      j := j + 1;
    }
    assert c.keys[..j] == c.keys;
  }

  /** The two matching loops of `_classify_by_content_analysis`, over the
      keyword table and then over the organisational terms, from `(0.0, 'H3')`. */
  method MatchKeywords(tl: string) returns (best: (real, Level))
    ensures best == KeywordMatch(tl)
  {
    best := (0.0, H3);
    var i := 0;
    while i < |Categories|
      invariant i <= |Categories|
      invariant KeywordPass(tl, Categories[i..], best) == KeywordPass(tl, Categories, (0.0, H3))
    {
      best := MatchCategory(tl, Categories[i], best);
      assert Categories[i..][1..] == Categories[i + 1..];
      i := i + 1;
    }
    var afterKeywords := best;
    var k := 0;
    while k < |HierarchyIndicators|
      invariant k <= |HierarchyIndicators|
      invariant IndicatorPass(tl, HierarchyIndicators[k..], best) == IndicatorPass(tl, HierarchyIndicators, afterKeywords)
    {
      if Contains(tl, HierarchyIndicators[k].0) && IndicatorScore > best.0 {
        best := (IndicatorScore, HierarchyIndicators[k].1);
      }
      assert HierarchyIndicators[k..][1..] == HierarchyIndicators[k + 1..];
      k := k + 1;
    }
  }

  /** `_classify_by_content_analysis(text, context)` as the source runs it:
      the matching loops, the length fallback when nothing matched, then the
      first-on-page and top-of-page bonuses. */
  method ClassifyByContent(text: string, ctx: PageContext) returns (r: (real, Level))
    ensures r == ContentAnalysis(text, ctx)
  {
    var tl := Strip(Lower(text));
    var best := MatchKeywords(tl);
    if best.0 == 0.0 {
      best := LengthHeuristic(|Split(tl)|, ctx.isTopOfPage);
    }
    if ctx.isFirstOnPage {
      best := (best.0 + 0.1, best.1);
    }
    if ctx.isTopOfPage {
      best := (best.0 + 0.05, best.1);
    }
    r := best;
  }

  // ---------------------------------------------------------------------
  // What the passes amount to
  // ---------------------------------------------------------------------

  /** The keyword loop amounts to a priority order: major sections, then
      subsection terms, then standard sections. */
  lemma {:induction false} KeywordPriority(tl: string)
    ensures KeywordPass(tl, Categories, (0.0, H3)) ==
      if ContainsAny(tl, MajorSections) then (0.9, H1)
      else if ContainsAny(tl, SubsectionTerms) then (0.8, H2)
      else if ContainsAny(tl, StandardSections) then (0.7, H1)
      else (0.0, H3)
  {
    var c := Categories;
    var s0 := (0.0, H3);
    var s1 := if ContainsAny(tl, MajorSections) then (0.9, H1) else s0;
    assert KeywordPass(tl, c, s0) == KeywordPass(tl, c[1..], s1);
    var s2 := if ContainsAny(tl, StandardSections) && 0.7 > s1.0 then (0.7, H1) else s1;
    assert KeywordPass(tl, c[1..], s1) == KeywordPass(tl, c[1..][1..], s2);
    var s3 := if ContainsAny(tl, SubsectionTerms) && 0.8 > s2.0 then (0.8, H2) else s2;
    assert KeywordPass(tl, c[1..][1..], s2) == KeywordPass(tl, c[1..][1..][1..], s3);
    assert c[1..][1..][1..] == [];
  }

  /** The first-occurring-in-table term that `tl` contains. */
  function FirstIndicator(tl: string, inds: seq<(string, Level)>): Option<Level> {
    if inds == [] then None
    else if Contains(tl, inds[0].0) then Some(inds[0].1)
    else FirstIndicator(tl, inds[1..])
  }

  /** The indicator loop keeps a best of 0.85 or more, and otherwise takes
      the first term of the table that occurs. */
  lemma {:induction false} IndicatorFirstMatch(tl: string, inds: seq<(string, Level)>, best: (real, Level))
    ensures best.0 >= IndicatorScore ==> IndicatorPass(tl, inds, best) == best
    ensures best.0 < IndicatorScore ==>
      IndicatorPass(tl, inds, best) ==
        (match FirstIndicator(tl, inds)
         case Some(l) => (IndicatorScore, l)
         case None => best)
  {
    if inds != [] {
      var next := if Contains(tl, inds[0].0) && IndicatorScore > best.0 then (IndicatorScore, inds[0].1) else best;
      IndicatorFirstMatch(tl, inds[1..], next);
    }
  }

  /** `sub` occurring inside `key` at `off` makes every string containing
      `key` contain `sub`. */
  lemma ContainsInner(s: string, key: string, sub: string, off: nat)
    requires off + |sub| <= |key| && key[off..off + |sub|] == sub
    requires Contains(s, key)
    ensures Contains(s, sub)
  {
    ContainsAt(s, key);
    var i :| OccursAt(s, key, i);
    forall q | 0 <= q < |sub| ensures s[i + off + q] == sub[q] {
      assert s[i..i + |key|][off + q] == key[off + q];
    }
    assert s[i + off..i + off + |sub|] == sub;
    assert OccursAt(s, sub, i + off);
    ContainsAt(s, sub);
  }

  /** `FirstIndicator` picks the first term of the table that occurs. */
  lemma {:induction false} FirstIndicatorIndex(tl: string, inds: seq<(string, Level)>)
    ensures FirstIndicator(tl, inds).Some? ==>
      exists k :: 0 <= k < |inds| && Contains(tl, inds[k].0) && FirstIndicator(tl, inds) == Some(inds[k].1)
        && forall j :: 0 <= j < k ==> !Contains(tl, inds[j].0)
    ensures FirstIndicator(tl, inds).None? ==> forall k :: 0 <= k < |inds| ==> !Contains(tl, inds[k].0)
  {
    if inds != [] && !Contains(tl, inds[0].0) {
      FirstIndicatorIndex(tl, inds[1..]);
      if FirstIndicator(tl, inds).Some? {
        var k :| 0 <= k < |inds[1..]| && Contains(tl, inds[1..][k].0) && FirstIndicator(tl, inds[1..]) == Some(inds[1..][k].1)
          && forall j :: 0 <= j < k ==> !Contains(tl, inds[1..][j].0);
        assert Contains(tl, inds[k + 1].0);
        forall j | 0 <= j < k + 1 ensures !Contains(tl, inds[j].0) {
          if j > 0 { assert inds[j] == inds[1..][j - 1]; }
        }
      } else {
        forall k | 0 <= k < |inds| ensures !Contains(tl, inds[k].0) {
          if k > 0 { assert inds[k] == inds[1..][k - 1]; }
        }
      }
    } else if inds != [] {
      assert Contains(tl, inds[0].0);
    }
  }

  /** Every text that contains "subtopic" contains "topic" and every one that
      contains "subsection" contains "section", and those come first in the
      table: the organisational terms never suggest H3. */
  lemma IndicatorNeverH3(tl: string)
    ensures FirstIndicator(tl, HierarchyIndicators) != Some(H3)
  {
    var inds := HierarchyIndicators;
    FirstIndicatorIndex(tl, inds);
    if FirstIndicator(tl, inds) == Some(H3) {
      var k :| 0 <= k < |inds| && Contains(tl, inds[k].0) && FirstIndicator(tl, inds) == Some(inds[k].1)
        && forall j :: 0 <= j < k ==> !Contains(tl, inds[j].0);
      if k == 7 {
        assert !Contains(tl, inds[6].0);
        assert inds[7].0 == "subtopic" && "subtopic"[3..8] == "topic";
        ContainsInner(tl, "subtopic", "topic", 3);
      } else {
        assert k == 8;
        assert !Contains(tl, inds[1].0);
        assert inds[8].0 == "subsection" && "subsection"[3..10] == "section";
        ContainsInner(tl, "subsection", "section", 3);
      }
    }
  }

  /** No keyword of the table and no organisational term occurs in `tl`. */
  predicate NoTableMatch(tl: string) {
    !ContainsAny(tl, MajorSections) && !ContainsAny(tl, SubsectionTerms)
    && !ContainsAny(tl, StandardSections)
    && FirstIndicator(tl, HierarchyIndicators) == None
  }

  /** What the two loops leave: nothing matched exactly when the score is 0,
      and a match never suggests H3. */
  lemma KeywordMatchSpec(tl: string)
    ensures var m := KeywordMatch(tl);
            && (m.0 == 0.0 <==> NoTableMatch(tl))
            && (m.0 != 0.0 ==> m.1 != H3 && 0.7 <= m.0 <= 0.9)
  {
    KeywordPriority(tl);
    var kw := KeywordPass(tl, Categories, (0.0, H3));
    IndicatorFirstMatch(tl, HierarchyIndicators, kw);
    IndicatorNeverH3(tl);
  }

  /** The content analysis suggests H3 exactly when no keyword and no
      organisational term occurs and the text has more than ten words. */
  lemma ContentH3Iff(text: string, ctx: PageContext)
    ensures ContentAnalysis(text, ctx).1 == H3 <==>
            NoTableMatch(Strip(Lower(text))) && |Split(Strip(Lower(text)))| > 10
  {
    var tl := Strip(Lower(text));
    var m := KeywordMatch(tl);
    KeywordMatchSpec(tl);
    assert ContentAnalysis(text, ctx).1
           == if m.0 == 0.0 then LengthHeuristic(|Split(tl)|, ctx.isTopOfPage).1 else m.1;
  }

  /** The content score lies between 0.2 and 1.05. */
  lemma ContentScoreBounds(text: string, ctx: PageContext)
    ensures 0.2 <= ContentAnalysis(text, ctx).0 <= 1.05
  {
    LoweredScoreBounds(Strip(Lower(text)), ctx);
  }

  lemma LoweredScoreBounds(tl: string, ctx: PageContext)
    ensures 0.2 <= AnalyzeLowered(tl, ctx).0 <= 1.05
  {
    KeywordMatchSpec(tl);
  }

  /** A heading naming a major section is suggested H1 with score at least 0.9. */
  lemma MajorSectionIsH1(text: string, ctx: PageContext)
    requires ContainsAny(Strip(Lower(text)), MajorSections)
    ensures ContentAnalysis(text, ctx).1 == H1 && ContentAnalysis(text, ctx).0 >= 0.9
  {
    var tl := Strip(Lower(text));
    KeywordPriority(tl);
    IndicatorFirstMatch(tl, HierarchyIndicators, (0.9, H1));
  }
}
