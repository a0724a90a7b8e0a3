/** How the title classifier picks the document title: the topmost doc-title
    fragments of the first page that pass a plausibility filter, joined, or
    else the topmost first-page heading. */
module Title {
  import opened PyStr
  import opened Records
  import opened Sorting

  /** One scored heading: its index among the headings, the heading and its
      score. */
  datatype Scored = Scored(idx: nat, heading: Fragment, score: real)

  // ---------------------------------------------------------------------
  // Plausible title text
  // ---------------------------------------------------------------------

  /** `^page\s+\d+` */
  predicate PagePattern(tl: string) {
    StartsWith(tl, "page")
    && var r := tl[4..];
    var w := |r| - |LStrip(r)|;
    0 < w < |r| && IsDigit(r[w])
  }

  /** `^version\s+` */
  predicate VersionPattern(tl: string) {
    StartsWith(tl, "version") && |tl| > 7 && IsSpace(tl[7])
  }

  /** `^\d{4}` */
  predicate FourDigits(tl: string) {
    |tl| >= 4 && IsDigit(tl[0]) && IsDigit(tl[1]) && IsDigit(tl[2]) && IsDigit(tl[3])
  }

  /** `^[a-z]{1,2}\s*` */
  predicate LetterStart(tl: string) {
    tl != [] && 'a' <= tl[0] <= 'z'
  }

  /** `^\d+\s*` */
  predicate DigitStart(tl: string) {
    tl != [] && IsDigit(tl[0])
  }

  /** Some exclusion pattern matches the lower-cased, stripped text. */
  predicate Excluded(tl: string) {
    PagePattern(tl) || VersionPattern(tl) || Contains(tl, "copyright")
    || FourDigits(tl) || LetterStart(tl) || DigitStart(tl)
  }

  /** `_is_meaningful_title_text(text)` */
  predicate MeaningfulTitleText(text: string) {
    if text == [] || |Strip(text)| < 2 then false
    else
      var tl := Strip(Lower(text));
      !Excluded(tl) && |Split(text)| <= 15 && |text| <= 150
  }

  /** The exclusion patterns amount to: the text starts with a lower-case
      ASCII letter or a digit, or contains "copyright". */
  lemma ExcludedSpec(tl: string)
    ensures Excluded(tl) <==> LetterStart(tl) || DigitStart(tl) || Contains(tl, "copyright")
  {
    if PagePattern(tl) {
      assert tl[..4] == "page";
      assert tl[0] == 'p';
    }
    if VersionPattern(tl) {
      assert tl[..7] == "version";
      assert tl[0] == 'v';
    }
  }

  /** The first character of a lower-cased text is a lower-case ASCII letter
      exactly when the original one is an ASCII letter, and a digit exactly
      when the original one is. */
  lemma LowerFirst(t: string)
    requires t != []
    ensures LetterStart(Lower(t)) <==> IsAsciiLetter(t[0])
    ensures DigitStart(Lower(t)) <==> IsDigit(t[0])
  {
    assert Lower(t)[0] == LowerChar(t[0]);
  }

  /** What the filter amounts to: the stripped text has two characters or
      more and starts with neither an ASCII letter nor a digit, it does not
      contain "copyright" in any case, and it is short. The pattern for
      one- or two-letter words refuses every text that starts with a letter,
      and the page, version and year patterns are covered by it or by the
      digit pattern. */
  lemma MeaningfulTitleTextSpec(text: string)
    ensures MeaningfulTitleText(text) <==>
              |Strip(text)| >= 2
              && !IsAsciiLetter(Strip(text)[0]) && !IsDigit(Strip(text)[0])
              && !Contains(Lower(Strip(text)), "copyright")
              && |Split(text)| <= 15 && |text| <= 150
  {
    StripLower(text);
    var t := Strip(text);
    if |t| >= 2 {
      ExcludedSpec(Lower(t));
      LowerFirst(t);
    }
  }

  // ---------------------------------------------------------------------
  // Title parts
  // ---------------------------------------------------------------------

  /** `h.get("bbox", [0, 0, 0, 0])[1]` */
  function TopOf(s: Scored): real { Y0(s.heading) }

  /** A doc-title candidate contributes its stripped text when its top edge is
      within 50 of the base candidate's and `accept` takes the text (the
      title uses `MeaningfulTitleText`). */
  predicate Contributes(c: Scored, baseY: real, accept: string -> bool) {
    var y := TopOf(c);
    (if y - baseY < 0.0 then baseY - y else y - baseY) < 50.0
    && accept(Strip(c.heading.text))
  }

  /** The stripped texts of every contributing candidate, in order. */
  function Qualifying(docs: seq<Scored>, baseY: real, accept: string -> bool): (r: seq<string>)
    ensures |r| <= |docs|
  {
    if docs == [] then []
    else
      var n := |docs| - 1;
      Qualifying(docs[..n], baseY, accept) + (if Contributes(docs[n], baseY, accept) then [Strip(docs[n].heading.text)] else [])
  }

  /** Every contributing text is accepted by the filter and is the stripped
      text of a candidate within 50 of the base. */
  lemma {:induction false} QualifyingAccepted(docs: seq<Scored>, baseY: real, accept: string -> bool, p: string)
    requires p in Qualifying(docs, baseY, accept)
    ensures accept(p)
    ensures exists c :: c in docs && Contributes(c, baseY, accept) && p == Strip(c.heading.text)
  {
    var n := |docs| - 1;
    if p in Qualifying(docs[..n], baseY, accept) {
      QualifyingAccepted(docs[..n], baseY, accept, p);
      var c :| c in docs[..n] && Contributes(c, baseY, accept) && p == Strip(c.heading.text);
      assert c in docs;
    } else {
      assert docs[n] in docs;
    }
  }

  /** No part is collected exactly when no candidate contributes. */
  lemma {:induction false} QualifyingEmpty(docs: seq<Scored>, baseY: real, accept: string -> bool)
    ensures Qualifying(docs, baseY, accept) == [] <==> forall c :: c in docs ==> !Contributes(c, baseY, accept)
  {
    if docs != [] {
      var n := |docs| - 1;
      QualifyingEmpty(docs[..n], baseY, accept);
      assert forall c :: c in docs <==> c in docs[..n] || c == docs[n] by {
        assert docs == docs[..n] + [docs[n]];
      }
    }
  }

  lemma QualifyingStep(docs: seq<Scored>, baseY: real, accept: string -> bool, i: nat)
    requires i < |docs|
    ensures Qualifying(docs[..i + 1], baseY, accept) == Qualifying(docs[..i], baseY, accept)
              + (if Contributes(docs[i], baseY, accept) then [Strip(docs[i].heading.text)] else [])
  {
    assert docs[..i + 1][..i] == docs[..i];
  }

  lemma {:induction false} QualifyingPrefix(docs: seq<Scored>, baseY: real, accept: string -> bool, i: nat)
    requires i <= |docs|
    ensures Qualifying(docs[..i], baseY, accept) <= Qualifying(docs, baseY, accept)
    decreases |docs| - i
  {
    if i < |docs| {
      QualifyingPrefix(docs, baseY, accept, i + 1);
      assert docs[..i + 1][..i] == docs[..i];
    } else {
      assert docs[..i] == docs;
    }
  }

  /** The parts the title is joined from: the first three contributing
      texts. */
  function TitlePartsSpec(docs: seq<Scored>, baseY: real, accept: string -> bool): (parts: seq<string>)
    ensures |parts| <= 3
  {
    var q := Qualifying(docs, baseY, accept);
    if |q| <= 3 then q else q[..3]
  }

  /** The loop over the doc-title candidates, stopping once three parts are
      collected. */
  method TitleParts(docs: seq<Scored>, baseY: real, accept: string -> bool) returns (parts: seq<string>)
    ensures parts == TitlePartsSpec(docs, baseY, accept)
  {
    parts := [];
    var i := 0;
    while i < |docs|
      invariant 0 <= i <= |docs|
      invariant parts == Qualifying(docs[..i], baseY, accept) && |parts| < 3
    {
      QualifyingStep(docs, baseY, accept, i);
      var candidate := docs[i];
      var text := Strip(candidate.heading.text);
      if Contributes(candidate, baseY, accept) {
        parts := parts + [text];
        if |parts| >= 3 {
          QualifyingPrefix(docs, baseY, accept, i + 1);
          assert parts == Qualifying(docs, baseY, accept)[..3];
          return;
        }
      }
      i := i + 1;
    }
    assert docs[..i] == docs;
  }

  // ---------------------------------------------------------------------
  // Choosing the title
  // ---------------------------------------------------------------------

  /** The headings on the first page (page 1 or before). */
  function FirstPage(scored: seq<Scored>): (r: seq<Scored>)
    ensures forall s :: s in r <==> s in scored && s.heading.page <= 1
  {
    if scored == [] then []
    else (if scored[0].heading.page <= 1 then [scored[0]] else []) + FirstPage(scored[1..])
  }

  /** The candidates: the first-page headings, or the first three headings
      when no heading is on the first page. */
  function TitleCandidates(scored: seq<Scored>): (r: seq<Scored>)
    ensures scored != [] ==> r != []
    ensures forall s :: s in r ==> s in scored
  {
    var first := FirstPage(scored);
    if first != [] then first else scored[..if |scored| < 3 then |scored| else 3]
  }

  /** `h.get("bbox", [0, 999, 0, 0])[1]`: a heading without a box sorts as if
      far down. */
  function SortTop(s: Scored): real {
    if s.heading.bbox.Some? then s.heading.bbox.value.y0 else 999.0
  }

  /** Top edge first, then higher score first. */
  function TitleKey(s: Scored): seq<real> { [SortTop(s), -s.score] }

  /** The candidates that are explicit document titles. */
  function DocTitles(cands: seq<Scored>): (r: seq<Scored>)
    ensures forall s :: s in r <==> s in cands && s.heading.kind == "doc_title"
  {
    if cands == [] then []
    else (if cands[0].heading.kind == "doc_title" then [cands[0]] else []) + DocTitles(cands[1..])
  }

  /** `_extract_document_title(scored)` */
  function ExtractDocumentTitle(scored: seq<Scored>): string {
    if scored == [] then ""
    else
      var ordered := SortBy(TitleCandidates(scored), TitleKey);
      var parts := PartsOf(ordered);
      if parts != [] then Strip(CollapseWhitespace(Join(" ", parts)))
      else Strip(ordered[0].heading.text)
  }

  /** `_extract_document_title(scored)` as the source runs it: sort the
      candidates, run the part loop over the doc-title candidates, and fall
      back to the first candidate. */
  method DocumentTitle(scored: seq<Scored>) returns (title: string)
    ensures title == ExtractDocumentTitle(scored)
  {
    if scored == [] {
      return "";
    }
    var ordered := SortBy(TitleCandidates(scored), TitleKey);
    var docs := DocTitles(ordered);
    var parts: seq<string> := [];
    if docs != [] {
      parts := TitleParts(docs, TopOf(docs[0]), MeaningfulTitleText);
    }
    if parts != [] {
      title := Strip(CollapseWhitespace(Join(" ", parts)));
    } else {
      title := Strip(ordered[0].heading.text);
    }
  }

  /** Some doc-title candidate within 50 of the first one has a plausible
      title text. */
  ghost predicate HasParts(ordered: seq<Scored>) {
    var docs := DocTitles(ordered);
    docs != [] && exists c :: c in docs && Contributes(c, TopOf(docs[0]), MeaningfulTitleText)
  }

  /** The title parts of the ordered candidates: at most three, there are
      some exactly when a doc-title candidate near the first one has a
      plausible text, and each is the plausible stripped text of a doc-title
      candidate within 50 of the first one. */
  function PartsOf(ordered: seq<Scored>): (parts: seq<string>)
    ensures |parts| <= 3
    ensures parts != [] <==> HasParts(ordered)
    ensures forall p :: p in parts ==> MeaningfulTitleText(p) && FromTitleLine(DocTitles(ordered), p)
  {
    var docs := DocTitles(ordered);
    if docs != [] then
      TitlePartsFacts(docs, TopOf(docs[0]), MeaningfulTitleText);
      TitlePartsSpec(docs, TopOf(docs[0]), MeaningfulTitleText)
    else []
  }

  /** `p` is the stripped text of a document-title candidate that contributes
      to the title block starting at the first candidate `docs[0]`. */
  ghost predicate FromTitleLine(docs: seq<Scored>, p: string) {
    && docs != []
    && exists c :: c in docs && p == Strip(c.heading.text)
                   && Contributes(c, TopOf(docs[0]), MeaningfulTitleText)
  }

  /** The parts are empty exactly when no candidate contributes, and each
      one is accepted and comes from a contributing candidate. */
  lemma TitlePartsFacts(docs: seq<Scored>, baseY: real, accept: string -> bool)
    ensures var parts := TitlePartsSpec(docs, baseY, accept);
            && (parts != [] <==> exists c :: c in docs && Contributes(c, baseY, accept))
            && forall p :: p in parts ==>
                 && accept(p)
                 && exists c :: c in docs && p == Strip(c.heading.text) && Contributes(c, baseY, accept)
  {
    var q := Qualifying(docs, baseY, accept);
    var parts := TitlePartsSpec(docs, baseY, accept);
    assert parts != [] <==> q != [];
    QualifyingEmpty(docs, baseY, accept);
    forall p | p in parts
      ensures accept(p)
      ensures exists c :: c in docs && p == Strip(c.heading.text) && Contributes(c, baseY, accept)
    {
      PartsAccepted(docs, baseY, accept, p);
    }
  }

  /** Every title part is accepted by the filter and is the stripped text of
      a candidate within 50 of the base. */
  lemma PartsAccepted(docs: seq<Scored>, baseY: real, accept: string -> bool, p: string)
    requires p in TitlePartsSpec(docs, baseY, accept)
    ensures accept(p)
    ensures exists c :: c in docs && Contributes(c, baseY, accept) && p == Strip(c.heading.text)
  {
    var q := Qualifying(docs, baseY, accept);
    assert p in q;
    QualifyingAccepted(docs, baseY, accept, p);
  }

  /** Candidate `i` has the least key, and no earlier candidate shares it:
      `min(cands, key=TitleKey)`. */
  ghost predicate FirstLeast(cands: seq<Scored>, i: nat) {
    && i < |cands|
    && (forall c :: c in cands ==> LexLe(TitleKey(cands[i]), TitleKey(c)))
    && (forall j :: 0 <= j < i ==> TitleKey(cands[j]) != TitleKey(cands[i]))
  }

  /** The stable sort puts first the first candidate with the least key:
      highest on the page, then best score, then earliest. */
  lemma OrderedFirstIsLeast(cands: seq<Scored>)
    requires cands != []
    ensures exists i: nat :: FirstLeast(cands, i) && SortBy(cands, TitleKey)[0] == cands[i]
  {
    assert UniformKey(cands, TitleKey);
    SortByFirst(cands, TitleKey);
    var i :| 0 <= i < |cands| && SortBy(cands, TitleKey)[0] == cands[i]
             && (forall c :: c in cands ==> LexLe(TitleKey(cands[i]), TitleKey(c)))
             && (forall j :: 0 <= j < i ==> TitleKey(cands[j]) != TitleKey(cands[i]));
    assert FirstLeast(cands, i);
  }

  /** The title rule: nothing without headings; the joined doc-title parts
      when some doc-title candidate near the first one is plausible;
      otherwise the stripped text of the first candidate with the least key. */
  ghost predicate TitleRule(scored: seq<Scored>, title: string) {
    if scored == [] then title == ""
    else
      var cands := TitleCandidates(scored);
      var ordered := SortBy(cands, TitleKey);
      if HasParts(ordered) then
        title == Strip(CollapseWhitespace(Join(" ", PartsOf(ordered))))
      else
        exists i: nat :: FirstLeast(cands, i) && title == Strip(cands[i].heading.text)
  }

  /** `_extract_document_title` follows the title rule, and takes its
      candidates from the first page whenever that page has a heading. */
  lemma TitleChoice(scored: seq<Scored>)
    ensures TitleRule(scored, ExtractDocumentTitle(scored))
    ensures FirstPage(scored) != [] ==> forall c :: c in TitleCandidates(scored) ==> c.heading.page <= 1
  {
    if scored != [] {
      var cands := TitleCandidates(scored);
      var ordered := SortBy(cands, TitleKey);
      var parts := PartsOf(ordered);
      var title := ExtractDocumentTitle(scored);
      assert title == if parts != [] then Strip(CollapseWhitespace(Join(" ", parts)))
                      else Strip(ordered[0].heading.text);
      if !HasParts(ordered) {
        OrderedFirstIsLeast(cands);
        var i: nat :| FirstLeast(cands, i) && ordered[0] == cands[i];
        assert title == Strip(cands[i].heading.text);
      }
    }
  }
}
