# Heading classification and outline agents, modelled in Dafny

This project models the analysis agents of a PDF outline extractor. They take
the text fragments of a document, each with its font size, style, bounding box
and page, and produce a document title and a list of headings levelled
H1–H3 in reading order.

* **`AdvancedTitleClassifier`** (`agents/TitleClassifier.py`) is the main
  engine.
  * Feature precomputation (`classifier.dfy`, `clustering.dfy`,
    `layout_stats.dfy`, `text_patterns.dfy`): adaptive font clusters over the
    distinct sizes, distribution-aware size normalisation, indent levels,
    width percentiles, the position of each heading on its page, numbered
    sequences and common prefixes.
  * Per-heading scoring (`scoring.dfy`, `numbering.dfy`, `keywords.dfy`):
    the numbering taxonomy and the keyword content analysis feed a weighted
    score, clamped at zero.
  * Title selection (`title.dfy`).
  * Five level-assignment strategies combined by weighted voting
    (`levels.dfy`, `voting.dfy`).
  * The hierarchical outline (`outline.dfy`).

  The classifier is a `class` whose statistics fields `PrecomputeFeatures`
  fills in place. The classifier's passes over its records, its strategy
  loops and the agents' loops are methods proved equal to specification
  functions. Comprehensions, and the short loops that only test a text
  against a fixed list and stop at the first match (the numbering patterns,
  the prefix groups, the exclusion patterns), are functions. The lemmas state what the code and its comments promise about
  those functions:
  * scores lie in [0, 1.23];
  * the title is the joined meaningful doc-title parts near the first one
    when there are any, and otherwise the text of the earliest topmost,
    best-scored candidate;
  * main chapters end up H1 and sub-sections H2;
  * the voted level has the greatest weighted count;
  * the outline is in reading order (page, then the heading's top edge)
    and holds exactly the entries of the candidates left after the title
    filter.
* **`HierarchyAnalysisAgent`** (`hierarchy.dfy`, `agents/hierarchy_agent.py`)
  ranks lines by a font-size z-score plus a bold bonus and keeps the top 5%
  (at least five). It deduplicates them by text and maps the three largest
  sizes to H1–H3. It also decides whether page 1 looks like a form.
* **`ValidationAgent`** (`validation.dfy`, `agents/validation_agent.py`)
  builds the final title from the page-1 lines of nearly the largest font
  ratio. It builds the final outline from the OCR "poster" pages and the
  filtered headings of the other pages. Its `clean_spacing` regexes are
  written out character by character.
* **`VisualAnalysisAgent`** (`visual.dfy`, `agents/visual_agent.py`)
  annotates each line in place with its font size relative to its page mean
  and with whether it stands clear of its vertical neighbours.
* **`TextAnalysisAgent`** (`text_analysis.dfy`, `agents/text_agent.py`)
  detects the document language once and annotates each line with
  numbering, upper-case, and short-text flags.

Shared pieces:
* `records.dfy` holds the records the agents exchange.
* `pystr.dfy` holds the Python string operations the agents use
  (`lower`, `strip`, `split`, `in`, `isdigit`, `istitle`, ...) over ASCII
  and Latin-1.
* `sorting.dfy` holds Python's `sorted` with tuple keys, proved ordered,
  a permutation and stable, and `sorted(set(...))`.
* `wrappers.dfy` holds `Option` and `Result`.

Modelling conventions:
* Python floats are Dafny `real`s.
* A dictionary key whose absence the code handles is an `Option`: `bbox`
  of the classifier's records, read through `.get` with a default
  (`agents/TitleClassifier.py:99-101,237,456`), and the keys the visual
  and text agents add. The keys `text`, `font_size` and `page` are plain
  fields, assumed present: the structure agent always sets them
  (`agents/structure_agent.py:104-113` and
  `agents/structure_agent.py:152-162`).
* An exception the source does not catch, or one that a surrounding
  `try` turns into a fallback, is the `Raised` case of a `Result`. Examples
  are the `IndexError` of `bbox[1]` on a short box, the `IndexError` of
  `split()[0]` on a blank line, and the `ZeroDivisionError` of a zero page
  mean.

Where a comment and the code differ, the model follows the code:
* The cluster-merging loop stops at two clusters even when `max_levels` is
  smaller (`agents/TitleClassifier.py:143`), so there are at most
  max(`max_levels`, 2) clusters.
* No font sizes give no cluster at all, rather than one empty cluster.
* A sub-section's numbering level never depends on earlier chapters,
  because the chapter map only ever records H1.

## Model

| member | source | states |
|---|---|---|
| Classifier.HeadingsOf | agents/TitleClassifier.py:58 | keeps exactly the records flagged `is_heading`, never more of them |
| Classifier.AdvancedTitleClassifier.constructor | agents/TitleClassifier.py:57-60 | the classifier keeps exactly the heading records and `max_levels` |
| Classifier.FontSizes | agents/TitleClassifier.py:85 | the font size of each heading, in order |
| Classifier.LeftEdges | agents/TitleClassifier.py:99 | the left edge of each heading (0 without a box), in order |
| Classifier.Widths | agents/TitleClassifier.py:101 | the width of each heading (0 without a box), in order |
| Classifier.ClusterRanksSpec | agents/TitleClassifier.py:90-93 | the rank map has a key for exactly the clustered sizes, and maps each one to the last cluster that holds it |
| Classifier.BuildClusterRanks | agents/TitleClassifier.py:90-93 | the nested loop fills exactly that rank map |
| Classifier.FontClusters | agents/TitleClassifier.py:85-93 | the clusters are those of the distinct sizes in descending order, and the ranks are their rank map |
| Classifier.AnalyzeTextPatterns | agents/TitleClassifier.py:293-301 | computes the numbered sequences and the common prefixes of the heading texts |
| Classifier.StatsAreSane | agents/TitleClassifier.py:82-112 | there are at most max(max_levels, 2) font clusters, every rank is a cluster index, and every heading's size has a rank whose cluster holds it |
| Classifier.ComputeStats | agents/TitleClassifier.py:82-112 | computes exactly the statistics `_precompute_features` stores |
| Classifier.AdvancedTitleClassifier.Store | agents/TitleClassifier.py:89-112 | the statistics fields hold the given statistics, and the headings and `max_levels` are unchanged |
| Classifier.AdvancedTitleClassifier.PrecomputeFeatures | agents/TitleClassifier.py:82-112 | the fields hold the statistics of the headings, and the headings and `max_levels` are unchanged |
| Classifier.ScoredBy | agents/TitleClassifier.py:618-629 | one record per heading, in order, with its index, the heading and its score |
| Classifier.ScoredOf | agents/TitleClassifier.py:618-629 | record `i` holds index `i` and heading `i` |
| Classifier.ScoreEach | agents/TitleClassifier.py:618-629 | the `_score_all` loop builds exactly those records |
| Classifier.AdvancedTitleClassifier.ScoreAll | agents/TitleClassifier.py:618-629 | scores every heading with the stored statistics |
| Classifier.ScoreBoundedAt | agents/TitleClassifier.py:449-603 | with consistent statistics every heading's score lies in [0, 1.23] |
| Classifier.ScoresBounded | agents/TitleClassifier.py:618-629 | the scored records have distinct indices and every score lies in [0, 1.23] |
| Classifier.EntryFromHeading | agents/TitleClassifier.py:710-752 | every outline entry is the stripped text and page of a heading that does not repeat the title, and a `main_chapter` heading's entry is H1 |
| Classifier.DocumentPromise | agents/TitleClassifier.py:631-752 | the title follows the title rule of `Title.TitleChoice` (the joined doc-title parts when some doc-title candidate near the first one is meaningful, otherwise the stripped text of the first least-key candidate); the outline is in (page, heading y) order; every entry is the stripped text and page of a heading that does not repeat the title, H1 for a `main_chapter` heading |
| Classifier.ClassifyHeadings | agents/TitleClassifier.py:71-80 | `classify()`: the empty document without headings, else the extracted title and outline of the scored headings; what it promises is stated by `Classifier.ClassificationPromise` |
| Classifier.ClassificationPromise | agents/TitleClassifier.py:71-80 | no headings yields exactly `{"title": "", "outline": []}`; otherwise scores lie in [0, 1.23], the title follows the title rule and the outline is in (page, heading y) order, with entries as `DocumentPromise` states |
| Classifier.AdvancedTitleClassifier.Classify | agents/TitleClassifier.py:71-80 | `classify` returns the classification of the stored headings and leaves them unchanged; on an empty document it returns before `_precompute_features`, so the statistics fields keep their values, and otherwise they hold the statistics of the headings |
| Clustering.SquaredDeviations | agents/TitleClassifier.py:164 | a sum of squared deviations is never negative |
| Clustering.Variation | agents/TitleClassifier.py:160-164 | the cluster variation (the square of stdev/mean) is never negative, and 0 for fewer than two sizes or a non-positive mean |
| Clustering.Gaps | agents/TitleClassifier.py:120-124 | one gap between each pair of consecutive sizes |
| Clustering.BuildUpTo | agents/TitleClassifier.py:130-140 | the first pass always has at least one cluster |
| Clustering.BuildUpToStep | agents/TitleClassifier.py:133-138 | each further size either opens a new cluster or joins the open one |
| Clustering.BuildUpToPartitions | agents/TitleClassifier.py:130-140 | the first pass splits the sizes into non-empty clusters that concatenate back to the sizes, in order |
| Clustering.CutAtGaps | agents/TitleClassifier.py:130-140 | the gap loop builds exactly the first-pass clusters |
| Clustering.PairVariations | agents/TitleClassifier.py:148-149 | one variation for each pair of neighbouring clusters |
| Clustering.ArgMin | agents/TitleClassifier.py:145-152 | the merge index holds a least variation, and every earlier variation is strictly larger (strict `<` keeps the first) |
| Clustering.LeastVaryingPair | agents/TitleClassifier.py:145-152 | the scan over the neighbouring pairs finds exactly that first least index |
| Clustering.MergeAt | agents/TitleClassifier.py:154-156 | merging two neighbours removes one cluster |
| Clustering.MergeAtKeeps | agents/TitleClassifier.py:154-156 | merging two neighbours keeps the sizes and their order |
| Clustering.MergeAtNonEmpty | agents/TitleClassifier.py:154-156 | merging keeps every cluster non-empty |
| Clustering.MergeClusters | agents/TitleClassifier.py:142-156 | the merge loop: while more than `max_levels` and more than 2 clusters, join the adjacent pair of least variation; what it keeps is stated by `Clustering.MergeClustersKeeps` and `Clustering.MergeClustersNonEmpty` |
| Clustering.MergeClustersKeeps | agents/TitleClassifier.py:143-156 | the merge loop keeps the sizes in order and the clusters non-empty, and stops at no more than max(max_levels, 2) clusters |
| Clustering.MergeClustersNonEmpty | agents/TitleClassifier.py:143-156 | the merge loop never leaves zero clusters |
| Clustering.AdaptiveFontClusters | agents/TitleClassifier.py:114-158 | no clusters for no sizes, one for one size, else the gap-cut clusters merged down; stated by `Clustering.AdaptiveFontClustersPartition` |
| Clustering.AdaptiveFontClustersPartition | agents/TitleClassifier.py:114-158 | font clusters are non-empty, concatenate to exactly the input sizes (the distinct sizes sorted descending), and number at most max(max_levels, 2), and at least one for non-empty input |
| Clustering.CreateAdaptiveFontClusters | agents/TitleClassifier.py:114-158 | the method with its in-place merge loop computes exactly those clusters |
| LayoutStats.MinOf | agents/TitleClassifier.py:171 | `min` is an element no larger than any other |
| LayoutStats.MaxOf | agents/TitleClassifier.py:171 | `max` is an element no smaller than any other |
| LayoutStats.CountAtMost | agents/TitleClassifier.py:182 | the rank counts at most all the sizes |
| LayoutStats.CountAtMostMonotone | agents/TitleClassifier.py:182 | a larger size never has a smaller rank |
| LayoutStats.CountAtMostPerm | agents/TitleClassifier.py:176-183 | the rank of a size is the same in any permutation of the list, so counting in the sorted list equals counting in the original |
| LayoutStats.PercentileRank | agents/TitleClassifier.py:182 | the generator sum counts exactly the values at most the given size |
| LayoutStats.NormalizeSizes | agents/TitleClassifier.py:166-186 | the normalisation has a key for exactly the distinct sizes |
| LayoutStats.NormalizedShare | agents/TitleClassifier.py:166-186 | every normalised size lies in (0, 1] |
| LayoutStats.NormalizedMonotone | agents/TitleClassifier.py:176-185 | a larger font size never gets a smaller normalised size |
| LayoutStats.NormalizedLargestIsOne | agents/TitleClassifier.py:166-186 | the largest size always normalises to 1 |
| LayoutStats.NormalizeWithDistribution | agents/TitleClassifier.py:166-186 | the loop builds exactly the specified normalisation, including the early return of 1.0 for every size when there is at most one size or the sizes are all close |
| LayoutStats.EdgeGaps | agents/TitleClassifier.py:199 | one gap between each pair of consecutive distinct left edges |
| LayoutStats.StepsUpTo | agents/TitleClassifier.py:209-211 | the running break count at edge `i` is at most `i` |
| LayoutStats.StepsMonotone | agents/TitleClassifier.py:209-211 | the running break count never decreases |
| LayoutStats.IndentMapUpToAt | agents/TitleClassifier.py:205-213 | after recording the first `i` edges, each of them maps to its capped running count |
| LayoutStats.IndentMapUpToKeys | agents/TitleClassifier.py:205-213 | only recorded edges are keys |
| LayoutStats.IndentLevels | agents/TitleClassifier.py:188-214 | the indent level of each distinct left edge, stepping up at each gap above the threshold; stated by `LayoutStats.IndentLevelsKeys`, `LayoutStats.IndentSmallestIsZero` and `LayoutStats.IndentLevelsMonotone` |
| LayoutStats.IndentLevelAt | agents/TitleClassifier.py:188-214 | each distinct edge gets its running break count capped at 3 |
| LayoutStats.IndentLevelsKeys | agents/TitleClassifier.py:188-214 | exactly the left edges get an indent level |
| LayoutStats.IndentSmallestIsZero | agents/TitleClassifier.py:205-207 | the smallest x gets level 0 |
| LayoutStats.IndentLevelBounded | agents/TitleClassifier.py:205-212 | no level is negative or exceeds 3 |
| LayoutStats.IndentLevelsMonotone | agents/TitleClassifier.py:209-212 | levels are non-decreasing in x |
| LayoutStats.IndentLevelStep | agents/TitleClassifier.py:209-212 | consecutive distinct x's differ by at most one level |
| LayoutStats.CalculateIndentLevels | agents/TitleClassifier.py:188-214 | the loop fills exactly the specified indent map |
| LayoutStats.WidthPercentiles | agents/TitleClassifier.py:216-229 | the sorted widths at index `int(k·n)` for k = 0.25, 0.5, 0.75, 0.9, and zeros without widths; stated by `LayoutStats.WidthPercentilesOrdered` |
| LayoutStats.WidthPercentilesOrdered | agents/TitleClassifier.py:216-229 | p25 ≤ p50 ≤ p75 ≤ p90, and each one is one of the widths when there are any |
| LayoutStats.OnPage | agents/TitleClassifier.py:240 | keeps exactly the headings of the page |
| LayoutStats.PositiveTops | agents/TitleClassifier.py:244-245 | keeps exactly the positive top edges of the page's headings |
| LayoutStats.PositionContexts | agents/TitleClassifier.py:231-267 | one position record per heading |
| LayoutStats.AnalyzePositionContext | agents/TitleClassifier.py:231-267 | the loop over the headings appends exactly the specified position record of each heading, in order |
| LayoutStats.TopmostOn | agents/TitleClassifier.py:263-264 | finds a heading of the page whose top edge is at most every later one's on that page |
| LayoutStats.SomeHeadingFirstOnPage | agents/TitleClassifier.py:263-264 | every page with a heading has a heading flagged first on its page |
| TextPatterns.Detections | agents/TitleClassifier.py:307-309 | the numbering pattern of each heading text, in heading order |
| TextPatterns.NumberedItems | agents/TitleClassifier.py:305-312 | every collected item is a `main_chapter` or `simple_number` heading with a positive number, paired with that number |
| TextPatterns.CollectNumbered | agents/TitleClassifier.py:305-312 | the collecting loop builds exactly those items |
| TextPatterns.SortedItems | agents/TitleClassifier.py:315 | after the stable sort by number the items are still numbered headings paired with their numbers |
| TextPatterns.Indices | agents/TitleClassifier.py:324 | the heading indices of a run, in order |
| TextPatterns.RunStart | agents/TitleClassifier.py:319-325 | the start of the current run is the last item, up to `k`, whose number is not its predecessor's plus one |
| TextPatterns.GroupRunShape | agents/TitleClassifier.py:319-325 | after `k` items the open run is exactly the items from its start to `k` |
| TextPatterns.GroupDoneLong | agents/TitleClassifier.py:323-324 | every finished sequence has at least two indices |
| TextPatterns.GroupDoneComplete | agents/TitleClassifier.py:319-325 | every item before the open run with a neighbour whose number differs by one is already in a finished sequence |
| TextPatterns.GroupDoneSound | agents/TitleClassifier.py:319-325 | every index in a finished sequence belongs to an item before the open run that has such a neighbour |
| TextPatterns.SequencesLong | agents/TitleClassifier.py:319-330 | every returned sequence has at least two indices |
| TextPatterns.SequencesComplete | agents/TitleClassifier.py:319-330 | an item with a neighbour whose number differs by one is in some sequence |
| TextPatterns.SequencesSound | agents/TitleClassifier.py:319-330 | every index in a sequence belongs to an item with such a neighbour |
| TextPatterns.GroupRuns | agents/TitleClassifier.py:316-330 | the grouping loop and the final check build exactly the specified sequences |
| TextPatterns.NumberedSequenceMember | agents/TitleClassifier.py:303-330 | an index in a numbered sequence is a numbered heading, and some other numbered heading's number is one more or one less |
| TextPatterns.FindNumberedSequences | agents/TitleClassifier.py:303-330 | `_find_numbered_sequences` returns the specified sequences, each with at least two indices |
| TextPatterns.SequentialNumbers | agents/TitleClassifier.py:605-616 | a number is sequential iff it is positive and the number of a heading in some sequence |
| TextPatterns.SequentialNumbersStep | agents/TitleClassifier.py:609-614 | visiting one more run adds exactly the positive numbers of its indices to the set |
| TextPatterns.GetSequentialNumbers | agents/TitleClassifier.py:605-616 | the nested loops collect exactly the specified set of sequential numbers |
| TextPatterns.PrefixKeys | agents/TitleClassifier.py:336-343 | the prefix key of each heading text, in heading order |
| TextPatterns.PrefixGroupMembers | agents/TitleClassifier.py:334-343 | a key has a group iff some heading has it, and its group holds exactly those headings, in increasing order |
| TextPatterns.CommonPrefixMembership | agents/TitleClassifier.py:332-346 | a heading is in a kept prefix group iff it has a key and some other heading has the same key |
| TextPatterns.FindCommonPrefixes | agents/TitleClassifier.py:332-346 | the loop builds exactly the specified groups |
| Numbering.DigitRun | agents/TitleClassifier.py:13-16 | the greedy `\d+` run: every character in it is a digit and the next one is not |
| Numbering.RomanRun | agents/TitleClassifier.py:17 | the greedy `[IVXLCDM]+` run (ignoring case): every character in it is a roman letter and the next one is not |
| Numbering.AfterTwoNumbers | agents/TitleClassifier.py:14-15 | the position after `\d+\.\d+` lies within the text |
| Numbering.DetectNumbering | agents/TitleClassifier.py:363-384 | the number is 1 for `roman_numeral`/`letter_numbering` and 0 for `bullet_point`/`none`; with no pattern the rest is the stripped text |
| Numbering.NumberDotSpaceIsMainChapter | agents/TitleClassifier.py:13-16 | "N. X" is always `main_chapter` with number N (never `simple_number`) |
| Numbering.SimpleNumberIsNotMainChapter | agents/TitleClassifier.py:13-16 | a `simple_number` text is digits followed by ")" or by "." with no whitespace after it |
| Numbering.LeadingDigits | agents/TitleClassifier.py:372-378 | `int(match.group(1))` is the value of the leading digits |
| Numbering.DetectSubsection | agents/TitleClassifier.py:14 | a text that is a subsection but not a main chapter is detected as `subsection`, with its leading number and the rest after the two numbers |
| Numbering.DetectSubsubsection | agents/TitleClassifier.py:15 | a text that only the third pattern matches is detected as `subsubsection`, with its leading number |
| Numbering.TwoNumbersPrefix | agents/TitleClassifier.py:13-14 | a text starting "a.b" followed by a non-digit is never `main_chapter`, and its two numbers end where expected |
| Numbering.TwoLevelNumberIsSubsection | agents/TitleClassifier.py:13-14 | "a.b X" is `subsection` with number a |
| Numbering.ThreeLevelShape | agents/TitleClassifier.py:13-15 | "a.b.c X" matches neither of the first two patterns and matches the third |
| Numbering.ThreeLevelNumberIsSubsubsection | agents/TitleClassifier.py:13-15 | "a.b.c X" is `subsubsection` with number a |
| Numbering.RomanShapeFromLetter | agents/TitleClassifier.py:17 | a roman letter followed by "." and whitespace has the roman-numeral shape, with a one-letter run |
| Numbering.DetectRoman | agents/TitleClassifier.py:17-18 | a roman letter followed by "." and whitespace is detected as `roman_numeral` with number 1 |
| Numbering.RomanLetterIsRomanNumeral | agents/TitleClassifier.py:17-18 | a single letter from IVXLCDM before ". X" is `roman_numeral`, never `letter_numbering`, with number 1 |
| Numbering.LetterNumberingIsNotRoman | agents/TitleClassifier.py:17-18 | a text detected as `letter_numbering` never starts with a roman letter |
| Keywords.KeywordPriority | agents/TitleClassifier.py:396-411 | the keyword pass gives (0.9, H1) for a major section; else (0.8, H2) for a subsection term; else (0.7, H1) for a standard section; else (0.0, H3) |
| Keywords.IndicatorFirstMatch | agents/TitleClassifier.py:414-419 | the indicator pass keeps a score of at least 0.85; below that, the first matching indicator in table order sets (0.85, its level) |
| Keywords.FirstIndicatorIndex | agents/TitleClassifier.py:414-419 | the chosen indicator is the first term of the table that occurs in the text, and with none chosen no term occurs |
| Keywords.IndicatorNeverH3 | agents/TitleClassifier.py:44-54 | the indicator pass never proposes H3: "subtopic" contains "topic" and "subsection" contains "section", and both shorter terms come earlier in the table |
| Keywords.KeywordMatchSpec | agents/TitleClassifier.py:393-419 | the table score is 0 iff no keyword and no indicator occurs; otherwise it is in [0.7, 0.9] and the level is not H3 |
| Keywords.ContentAnalysis | agents/TitleClassifier.py:386-447 | the content score and level of a text, from the keyword tables or the length heuristic plus the position bonuses; its level and bounds are stated by `Keywords.ContentH3Iff` and `Keywords.ContentScoreBounds` |
| Keywords.ContentH3Iff | agents/TitleClassifier.py:386-447 | content analysis suggests H3 iff nothing in the tables matches and the text has more than 10 words |
| Keywords.ContentScoreBounds | agents/TitleClassifier.py:386-447 | the content score lies in [0.2, 1.05] |
| Keywords.LoweredScoreBounds | agents/TitleClassifier.py:388-447 | the same bound, on the lower-cased stripped text |
| Keywords.MajorSectionIsH1 | agents/TitleClassifier.py:396-411 | a text naming a major section is suggested H1 with score at least 0.9 |
| Keywords.MatchCategory | agents/TitleClassifier.py:396-411 | the inner keyword loop over one category replaces the best (score, level) by the category's iff some keyword of it occurs in the text and its score is strictly greater |
| Keywords.MatchKeywords | agents/TitleClassifier.py:393-419 | the category loop and the indicator loop compute exactly the specified table match, starting from (0.0, H3) |
| Keywords.ClassifyByContent | agents/TitleClassifier.py:386-447 | `_classify_by_content_analysis` computes exactly the specified content score and level, whose bounds and H3 condition the lemmas above state |
| Scoring.Texts | agents/TitleClassifier.py:307-308 | the text of each heading, in order |
| Scoring.FirstIndex | agents/TitleClassifier.py:460 | a heading's index is the first position of an equal record, and 0 when there is none |
| Scoring.ScoreOf | agents/TitleClassifier.py:596-603 | the final score is never negative |
| Scoring.BoldNeverLowersScore | agents/TitleClassifier.py:509-510 | making a heading bold never lowers its score |
| Scoring.BoldBonus | agents/TitleClassifier.py:509-510 | the same for any given reading of the text |
| Scoring.EarlierPageNeverLowersScore | agents/TitleClassifier.py:537-544 | moving a heading to an earlier page (≥ 1) never lowers its score |
| Scoring.PageBonus | agents/TitleClassifier.py:537-544 | the same for any given reading of the text |
| Scoring.SequenceMembershipBonus | agents/TitleClassifier.py:566-571 | being in a numbered sequence adds exactly 0.03 to the feature sum |
| Scoring.ClusterFeatureBounds | agents/TitleClassifier.py:479-486 | the font-cluster feature lies in [0, 0.20] |
| Scoring.ScoreOfAtMost | agents/TitleClassifier.py:476-603 | with content score at most 1.05 the score is at most 1.23 |
| Scoring.ScoreAtMost | agents/TitleClassifier.py:449-603 | with consistent statistics a heading's score is at most 1.23 |
| Scoring.ScoreHeading | agents/TitleClassifier.py:449-603 | the score of a heading, looked up by its first equal heading; its bounds are stated by `Scoring.ScoreHeadingBounded` and its cues by `Scoring.BoldNeverLowersScore` and `Scoring.EarlierPageNeverLowersScore` |
| Scoring.ScoreHeadingBounded | agents/TitleClassifier.py:449-603 | with consistent statistics the score of heading `i` lies in [0, 1.23] |
| Title.ExcludedSpec | agents/TitleClassifier.py:689-701 | the six exclusion patterns together reject exactly the texts that start with a letter or a digit or contain "copyright" |
| Title.LowerFirst | agents/TitleClassifier.py:686-695 | the lower-cased text starts with a letter or digit iff the text does |
| Title.MeaningfulTitleTextSpec | agents/TitleClassifier.py:681-708 | a text is meaningful iff its stripped form has at least 2 characters and starts with neither an ASCII letter nor a digit, it does not contain "copyright", and it has at most 15 words and 150 characters |
| Title.Qualifying | agents/TitleClassifier.py:658-664 | never more parts than doc-title candidates |
| Title.QualifyingAccepted | agents/TitleClassifier.py:658-664 | every part passes the filter and is the stripped text of a candidate whose y is within 50 of the base y |
| Title.QualifyingEmpty | agents/TitleClassifier.py:658-664 | no text qualifies exactly when no candidate is within 50 of the base y with a meaningful text |
| Title.TitlePartsSpec | agents/TitleClassifier.py:654-666 | at most 3 parts are taken |
| Title.TitleParts | agents/TitleClassifier.py:654-666 | the loop that stops after three parts takes exactly the first three qualifying texts |
| Title.PartsAccepted | agents/TitleClassifier.py:654-666 | every part passes `_is_meaningful_title_text` and comes from a candidate whose y is within 50 of the first doc-title candidate's |
| Title.TitlePartsFacts | agents/TitleClassifier.py:654-668 | the parts are empty exactly when no candidate contributes, and each part passes the filter and is the stripped text of a contributing candidate |
| Title.FirstPage | agents/TitleClassifier.py:637 | keeps exactly the scored headings on page ≤ 1 |
| Title.TitleCandidates | agents/TitleClassifier.py:637-640 | the candidates are scored headings, and there is one whenever there is a scored heading |
| Title.DocTitles | agents/TitleClassifier.py:649-650 | keeps exactly the candidates of type `doc_title` |
| Title.PartsOf | agents/TitleClassifier.py:649-666 | at most 3 parts; there are parts exactly when some doc-title candidate within 50 of the first one has a meaningful stripped text; each part is meaningful and is the stripped text of such a candidate |
| Title.OrderedFirstIsLeast | agents/TitleClassifier.py:643-646 | after the stable (y ascending, score descending) sort, the first candidate is the earliest candidate whose key is least among all candidates |
| Title.ExtractDocumentTitle | agents/TitleClassifier.py:631-679 | the title: "" without scored headings, else the joined parts of the ordered candidates or the first ordered candidate's stripped text; the rule it follows is stated by `Title.TitleChoice` |
| Title.TitleChoice | agents/TitleClassifier.py:631-679 | no scored headings gives ""; when the ordered doc-title candidates yield parts, the title is their space-joined, whitespace-collapsed, stripped text; otherwise it is the stripped text of the earliest least-key candidate; candidates come from page 1 when it has any |
| Title.DocumentTitle | agents/TitleClassifier.py:631-679 | the method computes exactly the specified title |
| Levels.AssignUpToAt | agents/TitleClassifier.py:802-846 | after the loop, a candidate index has an assignment iff some candidate has it, and the value is the proposal of the last such candidate (a dict write overwrites) |
| Levels.AssignUpToPrefix | agents/TitleClassifier.py:802-846 | the dict after `k` steps depends only on the first `k` proposals |
| Levels.AssignedAt | agents/TitleClassifier.py:802-846 | when the index determines the candidate, every candidate's index is assigned some candidate's proposal equal to its own |
| Levels.Per | agents/TitleClassifier.py:933-952 | one proposal per candidate, computed from its own heading |
| Levels.PerCandidate | agents/TitleClassifier.py:933-952 | a strategy that judges each heading alone assigns each candidate the level of its own heading |
| Levels.AssignEach | agents/TitleClassifier.py:933-952 | the per-candidate loop builds exactly that dict |
| Levels.CandidateTexts | agents/TitleClassifier.py:803 | the candidates' texts, in order |
| Levels.CandidateDetections | agents/TitleClassifier.py:804 | the numbering pattern detected for each candidate's text, in order |
| Levels.NumberingUpTo | agents/TitleClassifier.py:802-846 | one level per candidate read so far |
| Levels.NumberingIsStateless | agents/TitleClassifier.py:800-846 | the numbering map only ever holds "h1", so the level of every candidate is the one its own numbering suggests (a sub-section is H2 whether or not its chapter was seen) |
| Levels.NumberingLevelOf | agents/TitleClassifier.py:795-846 | every candidate is assigned the level its own numbering pattern suggests |
| Levels.AssignByNumbering | agents/TitleClassifier.py:795-846 | the method computes exactly the numbering strategy's dict |
| Levels.NumberingLoop | agents/TitleClassifier.py:802-846 | the loop writes, for each candidate, the level of the step function threaded through the numbering map |
| Levels.NumberingStep | agents/TitleClassifier.py:803-844 | one loop iteration: the level by pattern (main chapter H1; sub-section H2, or H3 under a non-H1 chapter; sub-sub-section H3; simple number H1 when at most 10 and chapter-like, else H2; otherwise the content level) and the map with the chapter recorded |
| Levels.Sizes | agents/TitleClassifier.py:875 | the candidates' font sizes, in order |
| Levels.FormattingTiers | agents/TitleClassifier.py:870-927 | with one distinct size, H1 iff doc title or bold, never H3; with two or more, H1 iff doc title, largest size, or bold at the second size, and H3 iff not a doc title and below the two largest sizes |
| Levels.FormattingLevelOf | agents/TitleClassifier.py:870-927 | each candidate gets the tier of its size among the distinct sizes in descending order |
| Levels.AssignByFormatting | agents/TitleClassifier.py:870-927 | the method computes exactly the formatting strategy's dict |
| Levels.SemanticRefinesContent | agents/TitleClassifier.py:929-954 | without a sub-section term, the semantic level is never deeper than the content level; a major-section term gives H1; H3 only where the content level is H3 |
| Levels.AssignBySemantics | agents/TitleClassifier.py:929-954 | the method computes exactly the semantic strategy's dict |
| Levels.SpatialDeeperIndent | agents/TitleClassifier.py:956-979 | a heading with greater indent never gets a shallower level |
| Levels.SpatialLeftmost | agents/TitleClassifier.py:956-979 | a heading at the leftmost x is never H3, and is H1 iff its width is at least the 75th percentile |
| Levels.AssignBySpatialStructure | agents/TitleClassifier.py:956-979 | the method computes exactly the spatial strategy's dict |
| Levels.FlowUpTo | agents/TitleClassifier.py:995-1019 | one level per candidate read so far, in reading order |
| Levels.FlowShape | agents/TitleClassifier.py:981-1021 | the section depth stays below 3 and the previous level is H1 or H2; no candidate is H3, main chapters are H1 and sub-sections H2 |
| Levels.FlowLevelOf | agents/TitleClassifier.py:981-1021 | the flow strategy never assigns H3, and assigns H1 to main chapters and H2 to sub-sections |
| Levels.AssignByFlow | agents/TitleClassifier.py:981-1021 | the method sorts by (page, top) and computes exactly the flow strategy's dict |
| Levels.FlowLoop | agents/TitleClassifier.py:995-1019 | the loop over the sorted candidates writes the levels of the flow step function |
| Levels.StrategyTally | agents/TitleClassifier.py:1033-1036 | each level's count grows by the total weight of the strategies proposing it; counts stay non-negative with one entry per level |
| Levels.CandidateTally | agents/TitleClassifier.py:1028-1055 | a candidate's count for a level is the strategies' weight plus 3.0 (main chapter, H1) or 2.0 (sub-section, H2), plus 1.5 for H1 on an introduction/overview/references term or else 1.0 for H2 on an audience/objectives term |
| Levels.CombinedLevel | agents/TitleClassifier.py:1028-1068 | one candidate's level: the most common level of its weighted votes, else by its score; stated by `Levels.CombinedLevelIsHeaviest` and `Levels.CombinedStrictWinner` |
| Levels.CombinedLevelIsHeaviest | agents/TitleClassifier.py:1057-1059 | with votes, the chosen level's count is at least every level's count |
| Levels.CombinedStrictWinner | agents/TitleClassifier.py:1057-1068 | a level whose count beats every other level is chosen |
| Levels.Weighted | agents/TitleClassifier.py:782-791 | the five weights are non-negative |
| Levels.WeightedFor | agents/TitleClassifier.py:782-791 | a level's strategy weight is 4.0, 2.5, 2.0, 1.5 and 1.0 for numbering, formatting, semantic, spatial and flow proposing it |
| Levels.MainChapterVote | agents/TitleClassifier.py:1033-1059 | a main chapter that numbering and flow both put at H1 wins H1 whatever the other strategies say |
| Levels.SubsectionVote | agents/TitleClassifier.py:1033-1059 | a sub-section that numbering and flow both put at H2, without a major-section term, wins H2 whatever the others say |
| Levels.StrategiesFor | agents/TitleClassifier.py:766-791 | the five weighted strategies have non-negative weights |
| Levels.Combined | agents/TitleClassifier.py:1023-1072 | one (candidate, level) pair per candidate, in order, with the voted level |
| Levels.AssignLevels | agents/TitleClassifier.py:761-793 | one pair per candidate, in candidate order |
| Levels.MainChapterIsH1 | agents/TitleClassifier.py:806-808 | every candidate detected as a main chapter ends up H1 |
| Levels.SubsectionIsH2 | agents/TitleClassifier.py:811-828 | every sub-section without an introduction/overview/references term ends up H2 |
| Levels.LevelIsHeaviest | agents/TitleClassifier.py:1030-1059 | every candidate has votes, and its level has the greatest weighted count |
| Levels.CombineStrategies | agents/TitleClassifier.py:1023-1072 | the loop computes exactly the combined pairs |
| Levels.AssignHierarchicalLevels | agents/TitleClassifier.py:761-793 | the method computes exactly the five-strategy weighted vote |
| Voting.AddVote | agents/TitleClassifier.py:1033-1036 | `level_votes[level] += weight` leaves a non-empty counter whose levels gain `level`, keeps one entry per level and keeps counts non-negative for a non-negative weight |
| Voting.TallyAdd | agents/TitleClassifier.py:1036 | adding a weight for a level raises that level's count by the weight and no other count |
| Voting.TallyOfEntry | agents/TitleClassifier.py:1030-1036 | with one entry per level, a level's count is its entry's count |
| Voting.TallyAbsent | agents/TitleClassifier.py:1030-1036 | a level that was never voted for counts zero |
| Voting.FirstMaxSpec | agents/TitleClassifier.py:1059 | `most_common(1)` picks an entry whose count no entry exceeds, and on a tie the one inserted first |
| Voting.StrictWinner | agents/TitleClassifier.py:1057-1059 | a level whose count beats every other level is the one picked |
| Outline.RepeatIndicesSpec | agents/TitleClassifier.py:720-729 | an index is skipped as part of the title iff some scored heading with that index repeats the title's words |
| Outline.WithoutIndices | agents/TitleClassifier.py:732 | keeps exactly the scored headings whose index is not used in the title, in order |
| Outline.SameWordsRepeatTitle | agents/TitleClassifier.py:724-729 | a heading with the same non-empty word set as the title is treated as part of the title |
| Outline.EmptyTitleKeepsAll | agents/TitleClassifier.py:715-732 | with an empty title no heading is skipped and every scored heading is a candidate |
| Outline.Entries | agents/TitleClassifier.py:738-744 | one entry per levelled candidate, in order, with the upper-cased level, the stripped text and the page |
| Outline.SortedEntriesInPageOrder | agents/TitleClassifier.py:747-750 | sorting by (page, y of the matching heading) leaves any two entries with the earlier one on an earlier page, or on the same page with a y no greater |
| Outline.SortedEntryOrigin | agents/TitleClassifier.py:747-750 | the sort only reorders: every sorted entry is the entry of a levelled candidate |
| Outline.CreateOutline | agents/TitleClassifier.py:710-752 | the outline: the candidates not used in the title, levelled and sorted by (page, heading y); its order and origin are stated by `Outline.OutlineInPageOrder` and `Outline.OutlineEntryOrigin` |
| Outline.OutlineInPageOrder | agents/TitleClassifier.py:710-752 | the outline is in (page, heading y) reading order |
| Outline.OutlineEntries | agents/TitleClassifier.py:732-750 | the outline holds exactly the entries of the levelled candidates left after the title filter, as a multiset |
| Outline.OutlineEntryOrigin | agents/TitleClassifier.py:710-752 | every outline entry comes from a scored heading that was not used in the title and does not repeat it, carries its stripped text and page, and is H1 when the heading is a main chapter |
| Outline.TitleRepeatIndices | agents/TitleClassifier.py:720-729 | the loop collects exactly the indices of the headings that repeat the title |
| Outline.BuildEntries | agents/TitleClassifier.py:738-744 | the loop builds exactly the entries of the levelled candidates |
| Outline.CreateHierarchicalOutline | agents/TitleClassifier.py:710-752 | the method computes exactly the filtered, levelled and sorted outline |
| Sorting.SortBy | agents/TitleClassifier.py:986-989 | `sorted(..., key=...)` returns a permutation of its input; its order and stability are stated by `SortByIsSorted` and `SortByStable` |
| Sorting.SortByIsSorted | agents/TitleClassifier.py:747-750 | when all keys have the same length, the result is in non-decreasing key order (tuples compared lexicographically) |
| Sorting.SortByStable | agents/TitleClassifier.py:747-750 | the sort is stable: the elements with any one key value keep their relative order |
| Sorting.SortByFirst | agents/TitleClassifier.py:643-646 | the first element of the sorted list is the earliest input element whose key is least |
| Sorting.DistinctAsc | agents/TitleClassifier.py:194 | `sorted(set(xs))` is strictly increasing and holds exactly the values of `xs` |
| Sorting.DistinctDesc | agents/TitleClassifier.py:876 | `sorted(set(xs), reverse=True)` is strictly decreasing, holds exactly the values of `xs` and has as many elements as the ascending form |
| Sorting.SortReals | agents/TitleClassifier.py:176 | `sorted(values)` is a permutation of its input |
| Sorting.SortRealsAscending | agents/TitleClassifier.py:176 | `sorted(values)` is in non-decreasing order |
| Sorting.SortRealsMember | agents/TitleClassifier.py:221 | every element of the sorted list is an element of the input |
| Sorting.MedianBounds | agents/TitleClassifier.py:127 | the median lies between any lower and upper bound of the elements |
| PyStr.LowerChar | agents/TitleClassifier.py:353 | a lower-cased character is never upper-case, and it is an ASCII letter, a digit or whitespace iff the original is |
| PyStr.Lower | agents/TitleClassifier.py:353 | `s.lower()` has the same length and lower-cases each character in place |
| PyStr.LStrip | agents/TitleClassifier.py:365 | the left strip is a suffix of the input, removes only whitespace, and starts with a non-whitespace character unless empty |
| PyStr.RStrip | agents/TitleClassifier.py:365 | the right strip is a prefix of the input, removes only whitespace, and ends with a non-whitespace character unless empty |
| PyStr.Strip | agents/TitleClassifier.py:365 | `s.strip()` is no longer than `s` and neither starts nor ends with whitespace |
| PyStr.RStripChar | agents/hierarchy_agent.py:270 | `s.rstrip(".")` is a prefix of `s` that does not end with "." |
| PyStr.TakeWord | agents/TitleClassifier.py:389 | the first word is the longest whitespace-free prefix, non-empty when the text starts with a non-whitespace character |
| PyStr.TakeLine | agents/TitleClassifier.py:13 | what the regex `.+` takes is a prefix with no newline |
| PyStr.ContainsAt | agents/TitleClassifier.py:856 | `sub in s` holds iff `sub` occurs at some offset of `s` |
| PyStr.LowerHasNoUpper | agents/TitleClassifier.py:388 | no upper-case character occurs in a lower-cased string |
| PyStr.StripLower | agents/TitleClassifier.py:388 | `text.lower().strip()` equals `text.strip().lower()` |
| Hierarchy.LineScore | agents/hierarchy_agent.py:229-255 | the size term plus the bold, top-of-page, OCR, word-count and colon cues of a line with a top edge; stated by `Hierarchy.ScoreLine` and `Hierarchy.ScoreMonotone` |
| Hierarchy.ScoreLine | agents/hierarchy_agent.py:229-255 | `score_line` raises exactly when the box has no `bbox[1]`, and otherwise gives the z-score term plus the bold, top-of-page, OCR, word-count and closing-colon cues |
| Hierarchy.SizeTermMonotone | agents/hierarchy_agent.py:235-238 | with a positive spread, the z-score term grows with the font size |
| Hierarchy.ScoreMonotone | agents/hierarchy_agent.py:229-255 | a larger font never lowers a line's score, and bold adds exactly 1.0 |
| Hierarchy.LineSizes | agents/hierarchy_agent.py:278 | the font sizes of the lines, one for each, in order |
| Hierarchy.LevelsForSpec | agents/hierarchy_agent.py:257-265 | over the descending distinct sizes, only sizes that occur get a level; a size is H1 iff no size is above it, H2 iff exactly one is, H3 iff exactly two are |
| Hierarchy.LevelsForKeys | agents/hierarchy_agent.py:262-264 | only the first three distinct sizes are keys of the level map |
| Hierarchy.LevelBeyond | agents/hierarchy_agent.py:262-264 | a size below the three largest distinct sizes is not in the level map, so `level_map.get(size, "H3")` gives H3 |
| Hierarchy.DetermineLevels | agents/hierarchy_agent.py:257-265 | H1, H2 and H3 for the three largest distinct sizes; stated by `Hierarchy.DetermineLevelsSpec` |
| Hierarchy.DetermineLevelsSpec | agents/hierarchy_agent.py:257-265 | `determine_levels` maps the largest distinct size of the lines to H1, the second to H2 and the third to H3, and nothing else; empty input gives an empty map |
| Hierarchy.PageOne | agents/hierarchy_agent.py:269 | keeps exactly the page-1 lines |
| Hierarchy.NumberedCount | agents/hierarchy_agent.py:270 | the count of numbered labels, when it does not raise, is at most the number of lines |
| Hierarchy.ColonCount | agents/hierarchy_agent.py:271 | the count of colon-ended lines is at most the number of lines |
| Hierarchy.NumberedCountRaises | agents/hierarchy_agent.py:270 | the numbered-label count raises IndexError iff some line has no word after stripping |
| Hierarchy.IsFormLike | agents/hierarchy_agent.py:267-272 | whether the page-1 numbered and colon-ended lines together number at least 5, raising when a page-1 line has no words; stated by `Hierarchy.FormLikeSpec` |
| Hierarchy.FormLikeSpec | agents/hierarchy_agent.py:267-272 | `is_form_like` raises iff a page-1 line has no words; with at most two page-1 lines the document is never form-like |
| Hierarchy.NonToc | agents/hierarchy_agent.py:286-287 | keeps exactly the lines whose page `is_toc_page` rejects |
| Hierarchy.NonTocFrom | agents/hierarchy_agent.py:286-287 | the same filter over any list of lines |
| Hierarchy.ScoredLines | agents/hierarchy_agent.py:285-289 | each kept line paired with its score, in order |
| Hierarchy.ScoreLines | agents/hierarchy_agent.py:285-289 | the scoring loop raises iff a kept line has no top edge, and otherwise builds the scored pairs |
| Hierarchy.ScoreOrder | agents/hierarchy_agent.py:291 | in the stable score-descending order no pair has a higher score than an earlier one |
| Hierarchy.ScoreTiesKeepOrder | agents/hierarchy_agent.py:291 | `sort(reverse=True)` is stable: lines with equal scores keep their input order |
| Hierarchy.TopLines | agents/hierarchy_agent.py:291-293 | exactly the first max(5, ⌊0.05·n⌋) lines of the stable score-descending order are taken, or all n when there are fewer, each the line of the pair at the same position |
| Hierarchy.TopLinesHighest | agents/hierarchy_agent.py:291-293 | the taken prefix and the rest together are the scored lines, and every taken line scores at least as high as every line left out |
| Hierarchy.Dedup | agents/hierarchy_agent.py:297-308 | the outline has no more entries than the top lines |
| Hierarchy.DedupLoop | agents/hierarchy_agent.py:297-308 | the loop with its `seen` set builds exactly the deduplicated outline |
| Hierarchy.DedupOrigin | agents/hierarchy_agent.py:297-308 | every outline entry is built from the first top line with its text, at the level of its size |
| Hierarchy.DedupDistinct | agents/hierarchy_agent.py:297-308 | outline texts are pairwise distinct |
| Hierarchy.DedupCovers | agents/hierarchy_agent.py:297-308 | every top line's text has an outline entry |
| Hierarchy.TitleCandidates | agents/hierarchy_agent.py:312 | keeps exactly the H1 entries on page 1 |
| Hierarchy.LongestSpec | agents/hierarchy_agent.py:314 | `max(..., key=len)` picks an entry at least as long as every other and strictly longer than those before it (first on ties) |
| Hierarchy.AssembleSpec | agents/hierarchy_agent.py:310-327 | the result raises iff `is_form_like` raises; a form-like document has an empty outline and keeps its title; the title is the stripped longest page-1 H1 text, or "" when there is none |
| Hierarchy.RankedSpec | agents/hierarchy_agent.py:291-327 | the outline of the top lines has distinct texts, each entry from the first top line with its text, every top text present; the title and form-like outcome are as in `AssembleSpec` |
| Hierarchy.RankHeadingsSpec | agents/hierarchy_agent.py:274-327 | what `rank_headings` returns or raises; its outline and title are stated by `Hierarchy.RankedSpec` and `Hierarchy.AssembleSpec` |
| Hierarchy.RankHeadings | agents/hierarchy_agent.py:274-327 | `rank_headings` returns or raises as specified, and empty data gives `{"title": "", "outline": []}` |
| Validation.CollapseRunsSpec | agents/validation_agent.py:114 | collapsing whitespace runs keeps every non-whitespace character in order, leaves no two adjacent whitespace characters, and keeps whether the text starts with whitespace |
| Validation.JoinSinglesNonSpace | agents/validation_agent.py:113 | joining single word characters across one whitespace character drops only whitespace |
| Validation.CleanSpacing | agents/validation_agent.py:112-115 | `clean_spacing`: join single word characters, collapse whitespace runs, strip; stated by `Validation.CleanSpacingSpec` |
| Validation.CleanSpacingSpec | agents/validation_agent.py:112-115 | `clean_spacing` output has no leading or trailing whitespace and no two consecutive whitespace characters, and it keeps exactly the non-whitespace characters of its input, in order |
| Validation.InsertPage | agents/validation_agent.py:121 | inserting a page into an increasing page list adds exactly that page and keeps the list increasing |
| Validation.PagesOf | agents/validation_agent.py:121 | the page list is strictly increasing and holds exactly the pages that have a line |
| Validation.PageOneText | agents/validation_agent.py:126 | keeps exactly the page-1 lines that are not from OCR |
| Validation.WithRatio | agents/validation_agent.py:128 | keeps exactly the lines whose `font_ratio` is a number |
| Validation.MaxRatioSpec | agents/validation_agent.py:130 | the largest ratio is the ratio of some line, and no line has a larger one |
| Validation.RatioCandidates | agents/validation_agent.py:131 | keeps exactly the lines whose ratio is at least 0.9 × the largest |
| Validation.TitleOf | agents/validation_agent.py:125-136 | the title block of `validate`; its candidates and order are stated by `Validation.TitleCandidatesSpec`, `Validation.TitleOrderSpec` and `Validation.FirstLargestSpec` |
| Validation.TitleCandidatesSpec | agents/validation_agent.py:126-131 | the title candidates are exactly the page-1 non-OCR lines with a numeric ratio ≥ 0.9 × the largest such ratio; when that ratio is not negative there is always a candidate |
| Validation.TitleOrderSpec | agents/validation_agent.py:133 | the candidates are sorted by (y, x) and keep their multiset |
| Validation.Texts | agents/validation_agent.py:134 | the texts of the candidates, one for each, in order |
| Validation.FirstLargestSpec | agents/validation_agent.py:136 | `max(..., key=font_size)` picks a line whose font is at least every other line's, and strictly larger than those before it |
| Validation.OnPage | agents/validation_agent.py:145 | keeps exactly the lines of page `pg` |
| Validation.OcrLines | agents/validation_agent.py:148 | keeps exactly the OCR lines |
| Validation.MixedCase | agents/validation_agent.py:149 | keeps exactly the lines containing a lower-case ASCII letter |
| Validation.BestLine | agents/validation_agent.py:154 | the poster pick is one of the candidates |
| Validation.BestLineSpec | agents/validation_agent.py:154 | the poster pick is beaten by no candidate in (stripped length, y), and it beats every candidate before it |
| Validation.PosterEntries | agents/validation_agent.py:147-162 | a poster page gives at most one entry |
| Validation.PosterEntriesSpec | agents/validation_agent.py:147-162 | a poster page's entry is an H1 holding the cleaned text of one of its OCR lines plus one space, taken from a line with a lower-case letter unless no OCR line has one |
| Validation.HeadingsOn | agents/validation_agent.py:164 | keeps exactly the headings of page `pg` |
| Validation.CleanedTexts | agents/validation_agent.py:165 | the cleaned text of each heading, in order |
| Validation.KeepRare | agents/validation_agent.py:166-170 | keeps exactly the headings whose cleaned text occurs at most 3 times on the page |
| Validation.Emit | agents/validation_agent.py:172-185 | the emitted entries are never more than the headings |
| Validation.ValidationAgent.EmitHeadings | agents/validation_agent.py:172-185 | the loop over a page's sorted headings produces exactly the specified entries |
| Validation.CleanedNotEndingInSpace | agents/validation_agent.py:183 | a cleaned text never ends in a space, so a space is always appended |
| Validation.EmitOneSpec | agents/validation_agent.py:173-185 | a heading whose cleaned text is shorter than 3, matches `\d+\.?` or contains "copyright"/"this document may be copied" gives no entry; any other gives its level, its cleaned text plus one space and the page |
| Validation.EmitSpecBy | agents/validation_agent.py:172-185 | the entries correspond one to one, in order, to the headings that are not skipped |
| Validation.EmitSpec | agents/validation_agent.py:172-185 | each entry is the entry of the heading at an increasing position, for `clean_spacing` |
| Validation.SourcesIncrease | agents/validation_agent.py:172-185 | the headings that give entries keep their relative order |
| Validation.SortedByTopEdge | agents/validation_agent.py:172 | sorting the page's headings by `bbox[1]` makes the top edges non-decreasing |
| Validation.EmitFollowsTopEdges | agents/validation_agent.py:172-185 | within a non-poster page, emitted entries follow non-decreasing y |
| Validation.EmitOrigin | agents/validation_agent.py:172-185 | every emitted entry is the entry of one of the page's headings |
| Validation.EmitOriginBy | agents/validation_agent.py:172-185 | the same, for any cleaning that leaves no trailing space |
| Validation.PageOutlineSpec | agents/validation_agent.py:144-185 | every entry of a page is on that page; a page with an OCR line gives at most one entry, at level H1; a non-poster page raises iff a kept heading has no top edge, and otherwise gives only entries of its headings whose cleaned text occurs at most 3 times there |
| Validation.PageEntryShape | agents/validation_agent.py:144-185 | an entry of a page's outline is on that page and ends in exactly one space |
| Validation.OutlineOf | agents/validation_agent.py:144-185 | the per-page outlines concatenated in page order, raising when a page raises; stated by `Validation.OutlineOfSpec` and `Validation.RaisedStaysRaised` |
| Validation.OutlineOfSpec | agents/validation_agent.py:144-185 | the page loop raises iff some page raises; otherwise its entries come only from the listed pages, in non-decreasing page order |
| Validation.RaisedStaysRaised | agents/validation_agent.py:144-185 | once a page raises, the whole loop raises |
| Validation.OutlineEndsInOneSpace | agents/validation_agent.py:144-185 | when every page's entries end in one space, so do all outline entries |
| Validation.CleanedPlusSpace | agents/validation_agent.py:157 | a cleaned text followed by a space ends in exactly one space |
| Validation.PageOutlinerSpec | agents/validation_agent.py:144-185 | every page's entries are on that page and end in exactly one space |
| Validation.ValidationAgent.constructor | agents/validation_agent.py:107-109 | the agent keeps the headings and the structure as given |
| Validation.ValidationAgent.PageOutline | agents/validation_agent.py:145-185 | one turn of the page loop gives the specified page outline |
| Validation.ValidationAgent.OutlinePages | agents/validation_agent.py:144-185 | the page loop raises iff the specified loop raises, and otherwise gives its entries |
| Validation.ValidationAgent.Validate | agents/validation_agent.py:111-194 | `validate` returns the specified document |
| Validation.Validated | agents/validation_agent.py:111-194 | `validate()`: the title and outline, or the empty document when anything raises; stated by `Validation.ValidateSpec` |
| Validation.ValidateSpec | agents/validation_agent.py:120-194 | the `try` body succeeds iff the title and every page succeed; any exception yields `{"title": "", "outline": []}`; the title has no leading or trailing whitespace; outline pages are non-decreasing and present in `all_structure`, and every text ends in exactly one space |
| Visual.ValuesOn | agents/visual_agent.py:10-16 | a page's values are drawn from the lines, never more of them |
| Visual.GroupByPage | agents/visual_agent.py:10-16 | every page key of the `setdefault` grouping holds at least one value |
| Visual.GroupByPageSpec | agents/visual_agent.py:10-16 | the grouping's keys are exactly the pages that have a line, and each page maps to the values of its lines in input order |
| Visual.ValuesOnAlone | agents/visual_agent.py:10-16 | a line alone on its page gives that page exactly its own value |
| Visual.GroupValues | agents/visual_agent.py:10-11 | the font-size `setdefault` loop builds exactly the page grouping |
| Visual.GroupTops | agents/visual_agent.py:14-16 | the y-position loop raises IndexError iff some line has no `bbox[1]`, and otherwise builds the grouping of the top edges |
| Visual.IndexOf | agents/visual_agent.py:22 | `list.index` returns the first position holding the value |
| Visual.IsolationFlag | agents/visual_agent.py:21-26 | the `is_isolated` value of a line from the gaps to its neighbours on the page; stated by `Visual.IsolationFlagSpec` |
| Visual.IsolationFlagSpec | agents/visual_agent.py:21-26 | the isolation flag is truthy iff the gap to the previous or next y (at the first occurrence of the item's y) is present, non-zero and wider than 1.2 × font size; on a one-line page it is `None` |
| Visual.IsolatedMeansClear | agents/visual_agent.py:21-26 | on the sorted y list, the flag is truthy iff the line is more than 1.2 × font size clear of its nearest neighbour above or below |
| Visual.Isolation | agents/visual_agent.py:21-26 | computing the gaps gives the isolation flag |
| Visual.AnnotateLine | agents/visual_agent.py:19-26 | one turn of the loop raises ZeroDivisionError when the page mean is zero, and otherwise adds `font_ratio` and `is_isolated` |
| Visual.VisualAnalysisAgent.constructor | agents/visual_agent.py:5-6 | the agent keeps the lines as given |
| Visual.VisualAnalysisAgent.AnnotateLines | agents/visual_agent.py:18-27 | the loop annotates the lines in place up to the first one whose page mean is zero, leaves the rest untouched, and raises ZeroDivisionError exactly when such a line exists |
| Visual.VisualAnalysisAgent.AnalyzeVisual | agents/visual_agent.py:8-27 | the agent's lines become the analysed lines, and the result is what `analyze_visual` returns or raises |
| Visual.AnalyzedData | agents/visual_agent.py:18-27 | the analysed list keeps its length |
| Visual.AnalyzeOutcome | agents/visual_agent.py:8-27 | what `analyze_visual()` returns or raises (a missing top edge, a page of zero mean size); stated by `Visual.AnalyzeKeepsLines` and `Visual.IsolatedSpec` |
| Visual.AnalyzeKeepsLines | agents/visual_agent.py:18-27 | the list keeps length and order, only `font_ratio` and `is_isolated` change, and both are set on every line when nothing raises |
| Visual.OkAnnotated | agents/visual_agent.py:18-26 | when nothing raises, each line's ratio is its size over its page mean, and its flag is computed from its page's sorted y list |
| Visual.AnnotatedAt | agents/visual_agent.py:18-26 | when no page mean is zero, each line is the single-line annotation of the original line |
| Visual.FontRatioSpec | agents/visual_agent.py:9-20 | each item's `font_ratio` equals its font size divided by the (non-zero) mean font size of its page |
| Visual.AloneNotIsolated | agents/visual_agent.py:23-26 | a line alone on its page gets `is_isolated` = `None` (both gaps absent) |
| Visual.IsolatedSpec | agents/visual_agent.py:21-26 | `is_isolated` is truthy iff the line is more than 1.2 × font size clear of its neighbour above or below in the page's sorted y list |
| Visual.SortedTopsAscending | agents/visual_agent.py:21 | the page's y list is sorted ascending |
| Visual.RatiosAverageOne | agents/visual_agent.py:12-20 | when nothing raises, the font ratios of each page average exactly 1 |
| TextAnalysis.SampleTexts | agents/text_agent.py:9 | every sampled text is longer than 20 characters, and the sample is empty exactly when no page-1 line is longer than 20 characters |
| TextAnalysis.SampleSpec | agents/text_agent.py:9 | the space-joined sample is empty iff no page-1 line has more than 20 characters; otherwise it starts with the first such text |
| TextAnalysis.LanguageOf | agents/text_agent.py:9-10 | the document language; stated by `TextAnalysis.LanguageSpec` |
| TextAnalysis.LanguageSpec | agents/text_agent.py:9-10 | the language is "unknown" when no page-1 line has more than 20 characters, and otherwise the detector's answer on the (non-empty) joined sample |
| TextAnalysis.TextAnalysisAgent.constructor | agents/text_agent.py:6-10 | the agent keeps the lines as given and stores the language of their sample |
| TextAnalysis.ScanNumberSpec | agents/text_agent.py:13-16 | the left-to-right scan for `^\d+(\.\d+)*\s` accepts iff some prefix of the form digits(.digits)* is followed by a whitespace character |
| TextAnalysis.Numbered | agents/text_agent.py:13-16 | whether the number regex matches; stated by `TextAnalysis.NumberedSpec` |
| TextAnalysis.NumberedSpec | agents/text_agent.py:13-16 | `is_numbered` holds iff the text starts with digits, then any number of ".digits" groups, then a whitespace character |
| TextAnalysis.LongWords | agents/text_agent.py:18 | a word is kept iff it is one of the words and longer than 3 characters |
| TextAnalysis.UppercaseFlag | agents/text_agent.py:18-19 | the `is_uppercase` value; stated by `TextAnalysis.UppercaseSpec` |
| TextAnalysis.UppercaseSpec | agents/text_agent.py:18-19 | `is_uppercase` holds iff some word longer than 3 characters is upper-case, or no word is longer than 3 characters and the whole text is upper-case |
| TextAnalysis.NoCapitalsNotUppercase | agents/text_agent.py:18-19 | a text without an upper-case letter is never flagged upper-case |
| TextAnalysis.ShortTextIsShort | agents/text_agent.py:20 | a text of fewer than 9 characters has fewer than 5 words, so it is always flagged short |
| TextAnalysis.AnalyzedText | agents/text_agent.py:14-22 | annotating keeps the number of lines |
| TextAnalysis.AnalyzedTextSpec | agents/text_agent.py:14-22 | each line keeps all its other keys and gets `language`, `is_numbered` (the numbered-prefix test), `is_short` (fewer than 5 words) and `is_uppercase` (the flag above) |
| TextAnalysis.SameLanguage | agents/text_agent.py:22 | every annotated line carries the same language |
| TextAnalysis.AnalyzeTextIdempotent | agents/text_agent.py:14-22 | annotating annotated lines again changes nothing |
| TextAnalysis.AnnotateAll | agents/text_agent.py:14-22 | the loop over the lines computes exactly the annotated list |
| TextAnalysis.TextAnalysisAgent.AnalyzeText | agents/text_agent.py:12-24 | the agent's lines become the annotated lines, the language is unchanged, and the annotated lines are returned |

## Left out

- `model.py`, `extract_outline.py` and `agents/structure_agent.py` (PDF text extraction, OCR, the layout-detection model and file I/O) are not part of this model. The agents' inputs are given as lists of records.
- `classify_from_json` and the reporting helpers after it (`agents/TitleClassifier.py:1075-1301`) are left out: they are file I/O and console reports.
- `debug_info` (`agents/TitleClassifier.py:63-69`) and every `print` are left out: they are diagnostics that no result depends on.
- `level_names` (`agents/TitleClassifier.py:60`), the classifier's `page_analysis` (`agents/TitleClassifier.py:109`, computed by `_analyze_page_structure` at `agents/TitleClassifier.py:269-291`), its `structural_keywords` entry of the text patterns (`agents/TitleClassifier.py:298`, computed by `_identify_structural_keywords` at `agents/TitleClassifier.py:348-361`) and the validation agent's `structural_keywords` (`agents/validation_agent.py:138-141`) are left out: they are computed and never read.
- `round(score, 6)` (`agents/TitleClassifier.py:626`) is the identity: floats are exact reals, so IEEE rounding, `inf` and `nan` are not modelled.
- Clustering.Variation: models `stdev/mean` (`agents/TitleClassifier.py:160-164`) by its square, the sample variance over the squared mean. The merge picks the same pair, because squaring is monotone on non-negative values. The variation values themselves are not modelled.
- `statistics.pstdev` in `agents/hierarchy_agent.py` needs a square root, which Dafny's reals lack. It is the parameter `sqrt` of `Hierarchy.RankHeadings`.
- `is_toc_page` is imported from `utils/helpers.py`, which does not define it. It is the predicate parameter `isToc`.
- `detect_language` calls the `langdetect` library. It is the parameter `detect` of the text agent, and its exception wrapper is part of that parameter.
- Text is modelled over ASCII and Latin-1. Unicode case mapping, and Unicode whitespace and digits beyond Latin-1, are not modelled.
- The agents share dictionaries between them, and the text agent annotates the list it was given in place (`self.data`). This aliasing is not modelled: each agent returns new records, and the classes hold their own copies.
- The validation agent's `isinstance(font_ratio, (int, float))` is an `Option<real>`. A present value of another type is not modelled.
- `clean_spacing` is not idempotent (joining single characters can create new joinable pairs). The model states what one application yields, not a fixed point.
- `if not candidates: continue` on a poster page (`agents/validation_agent.py:151-152`) can never be taken, because a poster page has at least one OCR line. The model has no such branch.
- The `ValueError`/`IndexError` handler of the numbering strategy (`agents/TitleClassifier.py:827-828`) is unreachable, because the sub-section regex guarantees the digits. The model has no such path.
- Hierarchy.FormLikeSpec: the form-like test itself is the definition of `IsFormLike`: at least five numbered or colon-ended lines on page 1. The lemma states only when the test raises, and that a page 1 of at most two lines is never form-like.
