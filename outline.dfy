/** The title classifier's outline: the scored headings that do not merely
    repeat the document title, each with its assigned level, in page and
    position order. */
module Outline {
  import opened PyStr
  import opened Records
  import opened Sorting
  import opened Numbering
  import opened LayoutStats
  import opened Title
  import opened Levels

  // ---------------------------------------------------------------------
  // Leaving out headings that repeat the title
  // ---------------------------------------------------------------------

  /** `set(text.lower().split())` */
  function WordSet(text: string): set<string> {
    set w | w in Split(Lower(text))
  }

  /** `min(3, x)` */
  function MinThree(x: real): real {
    if x < 3.0 then x else 3.0
  }

  /** A heading repeats the title when the title has words, the heading
      shares at least `min(3, 0.7 * |title words|)` of them and adds fewer
      than two words of its own. */
  predicate RepeatsTitle(titleWords: set<string>, text: string) {
    var words := WordSet(text);
    titleWords != {}
    && |titleWords * words| as real >= MinThree(|titleWords| as real * 0.7)
    && |words - titleWords| < 2
  }

  /** The test the source applies to each heading's text. */
  function TitleRepeat(titleWords: set<string>): string -> bool {
    text => RepeatsTitle(titleWords, text)
  }

  /** The indices of the scored headings that repeat the title. */
  function UsedInTitle(scored: seq<Scored>, title: string): set<nat> {
    RepeatIndices(scored, TitleRepeat(WordSet(title)))
  }

  /** The indices of the scored headings whose text passes `repeats`,
      collected in order. */
  function RepeatIndices(scored: seq<Scored>, repeats: string -> bool): set<nat> {
    if scored == [] then {}
    else
      var last := scored[|scored| - 1];
      RepeatIndices(scored[..|scored| - 1], repeats)
      + (if repeats(last.heading.text) then {last.idx} else {})
  }

  /** An index is collected exactly when some heading with it passes. */
  lemma {:induction false} RepeatIndicesSpec(scored: seq<Scored>, repeats: string -> bool, i: nat)
    ensures i in RepeatIndices(scored, repeats) <==>
            exists s :: s in scored && repeats(s.heading.text) && s.idx == i
  {
    if scored != [] {
      var init := scored[..|scored| - 1];
      RepeatIndicesSpec(init, repeats, i);
      assert scored == init + [scored[|scored| - 1]];
      assert forall s :: s in scored <==> s in init || s == scored[|scored| - 1];
    }
  }

  /** The scored headings whose index is not in `used`, in order. */
  function WithoutIndices(scored: seq<Scored>, used: set<nat>): (r: seq<Scored>)
    ensures |r| <= |scored|
    ensures forall s :: s in r <==> s in scored && s.idx !in used
  {
    if scored == [] then []
    else (if scored[0].idx in used then [] else [scored[0]]) + WithoutIndices(scored[1..], used)
  }

  /** A heading with the same words as the title repeats it. */
  lemma SameWordsRepeatTitle(title: string, text: string)
    requires WordSet(text) == WordSet(title) != {}
    ensures RepeatsTitle(WordSet(title), text)
  {
    var tw := WordSet(title);
    assert tw * WordSet(text) == tw;
    assert WordSet(text) - tw == {};
  }

  /** Without a title nothing is left out. */
  lemma EmptyTitleKeepsAll(scored: seq<Scored>)
    ensures UsedInTitle(scored, "") == {}
    ensures WithoutIndices(scored, UsedInTitle(scored, "")) == scored
  {
    assert Split(Lower("")) == [];
    assert WordSet("") == {};
    forall i | i in UsedInTitle(scored, "") ensures false {
      RepeatIndicesSpec(scored, TitleRepeat({}), i);
    }
    WithoutNothing(scored);
  }

  lemma {:induction false} WithoutNothing(scored: seq<Scored>)
    ensures WithoutIndices(scored, {}) == scored
  {
    if scored != [] {
      WithoutNothing(scored[1..]);
    }
  }

  // ---------------------------------------------------------------------
  // The outline entries
  // ---------------------------------------------------------------------

  /** `{"level": level.upper(), "text": text.strip(), "page": page}` */
  function EntryOf(p: (Scored, Level)): Entry {
    Entry(p.1, Strip(p.0.heading.text), p.0.heading.page)
  }

  function Entries(levelled: seq<(Scored, Level)>): (r: seq<Entry>)
    ensures |r| == |levelled| && forall j :: 0 <= j < |levelled| ==> r[j] == EntryOf(levelled[j])
  {
    seq(|levelled|, j requires 0 <= j < |levelled| => EntryOf(levelled[j]))
  }

  /** `_get_heading_y_position(text, scored)`: the top edge of the first
      scored heading whose stripped text is `text`, 0 when none is. */
  function HeadingY(text: string, scored: seq<Scored>): real {
    if scored == [] then 0.0
    else if Strip(scored[0].heading.text) == text then Y0(scored[0].heading)
    else HeadingY(text, scored[1..])
  }

  /** The sort key of an entry: page, then the position of its heading. */
  function OutlineKey(scored: seq<Scored>): Entry -> seq<real> {
    (e: Entry) => [e.page as real, HeadingY(e.text, scored)]
  }

  /** `_create_hierarchical_outline(scored, document_title)` with the indent
      levels and width percentiles the spatial strategy reads. */
  function CreateOutline(scored: seq<Scored>, title: string, indent: map<real, int>, widths: Percentiles): seq<Entry> {
    var cands := WithoutIndices(scored, UsedInTitle(scored, title));
    SortBy(Entries(AssignLevels(cands, indent, widths)), OutlineKey(scored))
  }

  // ---------------------------------------------------------------------
  // What the outline promises
  // ---------------------------------------------------------------------

  /** Reading order: by page, and within a page by the top edge of the first
      scored heading with the entry's text. */
  predicate InReadingOrder(outline: seq<Entry>, scored: seq<Scored>) {
    forall i, j :: 0 <= i < j < |outline| ==>
      || outline[i].page < outline[j].page
      || (outline[i].page == outline[j].page && HeadingY(outline[i].text, scored) <= HeadingY(outline[j].text, scored))
  }

  /** Sorting entries by the outline key puts them in reading order. */
  lemma SortedEntriesInPageOrder(scored: seq<Scored>, entries: seq<Entry>, sorted: seq<Entry>)
    requires sorted == SortBy(entries, OutlineKey(scored))
    ensures InReadingOrder(sorted, scored)
  {
    var key := OutlineKey(scored);
    assert UniformKey(entries, key);
    SortByIsSorted(entries, key);
    forall i, j | 0 <= i < j < |sorted|
      ensures || sorted[i].page < sorted[j].page
              || (sorted[i].page == sorted[j].page && HeadingY(sorted[i].text, scored) <= HeadingY(sorted[j].text, scored))
    {
      assert LexLe(key(sorted[i]), key(sorted[j]));
      LexLePair(sorted[i].page as real, HeadingY(sorted[i].text, scored),
                sorted[j].page as real, HeadingY(sorted[j].text, scored));
    }
  }

  /** The outline is in reading order. */
  lemma OutlineInPageOrder(scored: seq<Scored>, title: string, indent: map<real, int>, widths: Percentiles)
    ensures InReadingOrder(CreateOutline(scored, title, indent, widths), scored)
  {
    var cands := WithoutIndices(scored, UsedInTitle(scored, title));
    var outline := CreateOutline(scored, title, indent, widths);
    SortedEntriesInPageOrder(scored, Entries(AssignLevels(cands, indent, widths)), outline);
  }

  /** Every sorted entry is the entry of one of the levelled candidates. */
  lemma SortedEntryOrigin(scored: seq<Scored>, levelled: seq<(Scored, Level)>, e: Entry)
    requires e in SortBy(Entries(levelled), OutlineKey(scored))
    ensures exists j :: 0 <= j < |levelled| && e == EntryOf(levelled[j])
  {
    var entries := Entries(levelled);
    assert e in multiset(SortBy(entries, OutlineKey(scored)));
    assert e in multiset(entries);
    var j :| 0 <= j < |entries| && entries[j] == e;
  }

  /** The outline is a reordering of one entry per heading that does not
      repeat the title. */
  lemma OutlineEntries(scored: seq<Scored>, title: string, indent: map<real, int>, widths: Percentiles)
    ensures var cands := WithoutIndices(scored, UsedInTitle(scored, title));
            var outline := CreateOutline(scored, title, indent, widths);
            multiset(outline) == multiset(Entries(AssignLevels(cands, indent, widths)))
  {
  }

  /** Every outline entry is the stripped text and page of a heading `k`
      that does not repeat the title, at level H1 when it is a main chapter. */
  lemma OutlineEntryOrigin(scored: seq<Scored>, title: string, indent: map<real, int>, widths: Percentiles, e: Entry)
    returns (k: nat)
    requires IdxDetermines(scored)
    requires e in CreateOutline(scored, title, indent, widths)
    ensures k < |scored| && scored[k].idx !in UsedInTitle(scored, title)
    ensures !RepeatsTitle(WordSet(title), scored[k].heading.text)
    ensures e.text == Strip(scored[k].heading.text) && e.page == scored[k].heading.page
    ensures DetectNumbering(scored[k].heading.text).pattern == MainChapter ==> e.level == H1
  {
    var cands := WithoutIndices(scored, UsedInTitle(scored, title));
    var levelled := AssignLevels(cands, indent, widths);
    SortedEntryOrigin(scored, levelled, e);
    var j :| 0 <= j < |levelled| && e == EntryOf(levelled[j]);
    var s := cands[j];
    assert s in cands;
    assert IdxDetermines(cands);
    if RepeatsTitle(WordSet(title), s.heading.text) {
      RepeatIndicesSpec(scored, TitleRepeat(WordSet(title)), s.idx);
    }
    if DetectNumbering(s.heading.text).pattern == MainChapter {
      MainChapterIsH1(cands, indent, widths, j);
    }
    k :| 0 <= k < |scored| && scored[k] == s;
  }

  // ---------------------------------------------------------------------
  // The loops
  // ---------------------------------------------------------------------

  /** The loop collecting the indices of the headings that repeat the title. */
  method TitleRepeatIndices(scored: seq<Scored>, repeats: string -> bool) returns (used: set<nat>)
    ensures used == RepeatIndices(scored, repeats)
  {
    used := {};
    var i := 0;
    while i < |scored|
      invariant 0 <= i <= |scored|
      invariant used == RepeatIndices(scored[..i], repeats)
    {
      if repeats(scored[i].heading.text) {
        used := used + {scored[i].idx};
      }
      assert scored[..i + 1][..i] == scored[..i];
      i := i + 1;
    }
    assert scored[..i] == scored;
  }

  /** The loop building one entry per levelled candidate. */
  method BuildEntries(levelled: seq<(Scored, Level)>) returns (outline: seq<Entry>)
    ensures outline == Entries(levelled)
  {
    outline := [];
    var k := 0;
    while k < |levelled|
      invariant 0 <= k <= |levelled|
      invariant |outline| == k
      invariant forall j :: 0 <= j < k ==> outline[j] == EntryOf(levelled[j])
    {
      outline := outline + [EntryOf(levelled[k])];
      k := k + 1;
    }
    assert outline == Entries(levelled);
  }

  /** `_create_hierarchical_outline`: leave out the headings that repeat the
      title, assign levels to the rest, build the entries and sort them. */
  method CreateHierarchicalOutline(scored: seq<Scored>, title: string, indent: map<real, int>, widths: Percentiles)
    returns (outline: seq<Entry>)
    ensures outline == CreateOutline(scored, title, indent, widths)
  {
    var used := TitleRepeatIndices(scored, TitleRepeat(WordSet(title)));
    var cands := WithoutIndices(scored, used);
    var levelled := AssignHierarchicalLevels(cands, indent, widths);
    outline := BuildEntries(levelled);
    outline := SortBy(outline, OutlineKey(scored));
  }
}
