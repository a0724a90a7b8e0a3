/** The text patterns the title classifier looks for across all of its
    headings: runs of consecutively numbered chapters and groups of
    sub-sections that share their chapter number. */
module TextPatterns {
  import opened PyStr
  import opened Sorting
  import opened Numbering
  import opened Wrappers

  // ---------------------------------------------------------------------
  // Numbered items
  // ---------------------------------------------------------------------

  /** The numbering pattern of every heading text, in heading order. */
  function Detections(texts: seq<string>): (r: seq<Detection>)
    ensures |r| == |texts| && forall i :: 0 <= i < |texts| ==> r[i] == DetectNumbering(texts[i])
  {
    seq(|texts|, i requires 0 <= i < |texts| => DetectNumbering(texts[i]))
  }

  /** A heading takes part in numbered sequences when it is numbered as a
      main chapter or with a simple number, with a positive number. */
  predicate IsNumberedItem(d: Detection) {
    d.pattern in {MainChapter, SimpleNumber} && d.number > 0
  }

  /** `(number, index)` of every numbered heading, in heading order. */
  function NumberedItems(dets: seq<Detection>): (items: seq<(nat, nat)>)
    ensures forall x :: x in items ==> x.1 < |dets| && IsNumberedItem(dets[x.1]) && x.0 == dets[x.1].number
  {
    if dets == [] then []
    else
      var n := |dets| - 1;
      var prev := NumberedItems(dets[..n]);
      assert forall x :: x in prev ==> dets[..n][x.1] == dets[x.1];
      prev + (if IsNumberedItem(dets[n]) then [(dets[n].number, n)] else [])
  }

  function ItemKey(x: (nat, nat)): seq<real> { [x.0 as real] }

  /** `numbered_items.sort(key=lambda x: x[0])`: stable, by number. */
  function SortedItems(dets: seq<Detection>): (items: seq<(nat, nat)>)
    ensures forall x :: x in items ==> x.1 < |dets| && IsNumberedItem(dets[x.1]) && x.0 == dets[x.1].number
  {
    var items := NumberedItems(dets);
    var sorted := SortBy(items, ItemKey);
    assert forall x :: x in sorted ==> x in items by {
      forall x | x in sorted ensures x in items {
        assert x in multiset(sorted);
      }
    }
    sorted
  }

  // ---------------------------------------------------------------------
  // Grouping into runs of consecutive numbers
  // ---------------------------------------------------------------------

  /** The finished sequences and the run being extended. */
  datatype Grouping = Grouping(done: seq<seq<nat>>, run: seq<(nat, nat)>)

  /** The heading indices of a run. */
  function Indices(run: seq<(nat, nat)>): (r: seq<nat>)
    ensures |r| == |run| && forall j :: 0 <= j < |run| ==> r[j] == run[j].1
  {
    seq(|run|, j requires 0 <= j < |run| => run[j].1)
  }

  /** Closing the current run keeps it only when it has two items or more. */
  function Close(g: Grouping): seq<seq<nat>> {
    if |g.run| >= 2 then g.done + [Indices(g.run)] else g.done
  }

  /** One step of the grouping loop. */
  function Step(g: Grouping, x: (nat, nat)): Grouping {
    if g.run == [] || x.0 == g.run[|g.run| - 1].0 + 1 then Grouping(g.done, g.run + [x])
    else Grouping(Close(g), [x])
  }

  /** The grouping after the first `k` items. */
  function GroupUpTo(items: seq<(nat, nat)>, k: nat): Grouping
    requires k <= |items|
  {
    if k == 0 then Grouping([], []) else Step(GroupUpTo(items, k - 1), items[k - 1])
  }

  /** The sequences the grouping loop returns for `items`. */
  function Sequences(items: seq<(nat, nat)>): seq<seq<nat>> {
    Close(GroupUpTo(items, |items|))
  }

  /** `_find_numbered_sequences()`, given the numbering of every heading. */
  function NumberedSequences(dets: seq<Detection>): seq<seq<nat>> {
    Sequences(SortedItems(dets))
  }

  /** `v` is one of the indices of some sequence in `seqs`. */
  predicate InSome(v: nat, seqs: seq<seq<nat>>) {
    exists j :: 0 <= j < |seqs| && v in seqs[j]
  }

  /** Item `p` has a neighbour in the sorted order whose number differs from
      its own by exactly one. */
  predicate HasNeighbour(items: seq<(nat, nat)>, p: nat)
    requires p < |items|
  {
    (p > 0 && items[p - 1].0 + 1 == items[p].0) || (p + 1 < |items| && items[p].0 + 1 == items[p + 1].0)
  }

  /** Item `s` starts a run: it is first, or its number does not follow the
      number before it. */
  predicate StartsRun(items: seq<(nat, nat)>, s: nat)
    requires s < |items|
  {
    s == 0 || items[s - 1].0 + 1 != items[s].0
  }

  /** The first item of the run that item `k - 1` belongs to. */
  function RunStart(items: seq<(nat, nat)>, k: nat): (s: nat)
    requires 1 <= k <= |items|
    ensures s < k && StartsRun(items, s)
    ensures forall p :: s < p < k ==> !StartsRun(items, p)
  {
    if StartsRun(items, k - 1) then k - 1 else RunStart(items, k - 1)
  }

  /** A step extends the current run when `x` follows its last item, and
      starts a new run holding only `x` otherwise. */
  lemma StepRun(g: Grouping, x: (nat, nat), last: (nat, nat))
    requires g.run != [] && g.run[|g.run| - 1] == last
    ensures last.0 + 1 == x.0 ==> Step(g, x).run == g.run + [x]
    ensures last.0 + 1 != x.0 ==> Step(g, x).run == [x]
  {
  }

  /** The run being extended after `k` items is the stretch since the last
      break. */
  lemma {:induction false} GroupRunShape(items: seq<(nat, nat)>, k: nat)
    requires 1 <= k <= |items|
    ensures GroupUpTo(items, k).run == items[RunStart(items, k)..k]
  {
    if k > 1 {
      GroupRunShape(items, k - 1);
      var s := RunStart(items, k - 1);
      var run := GroupUpTo(items, k - 1).run;
      assert run[|run| - 1] == items[s..k - 1][k - 2 - s];
      StepRun(GroupUpTo(items, k - 1), items[k - 1], items[k - 2]);
      if !StartsRun(items, k - 1) {
        assert items[s..k] == items[s..k - 1] + [items[k - 1]];
      }
    }
  }

  /** Every finished sequence has at least two indices. */
  lemma {:induction false} GroupDoneLong(items: seq<(nat, nat)>, k: nat)
    requires k <= |items|
    ensures forall j :: 0 <= j < |GroupUpTo(items, k).done| ==> |GroupUpTo(items, k).done[j]| >= 2
  {
    if k > 0 {
      GroupDoneLong(items, k - 1);
    }
  }

  /** The items of a run of two or more all have a neighbour; a run of one
      item has none. */
  lemma RunNeighbours(items: seq<(nat, nat)>, s: nat, e: nat, p: nat)
    requires s <= p < e <= |items| && StartsRun(items, s)
    requires e == |items| || StartsRun(items, e)
    requires forall q :: s < q < e ==> !StartsRun(items, q)
    ensures HasNeighbour(items, p) <==> e - s >= 2
  {
    if e - s >= 2 {
      if p == s {
        assert !StartsRun(items, s + 1);
      } else {
        assert !StartsRun(items, p);
      }
    }
  }

  lemma CloseKeepsDone(g: Grouping, v: nat)
    requires InSome(v, g.done)
    ensures InSome(v, Close(g))
  {
    var j :| 0 <= j < |g.done| && v in g.done[j];
    assert Close(g)[j] == g.done[j];
  }

  lemma CloseKeepsRun(g: Grouping, r: nat)
    requires |g.run| >= 2 && r < |g.run|
    ensures InSome(g.run[r].1, Close(g))
  {
    assert Indices(g.run)[r] == g.run[r].1;
    assert Close(g)[|g.done|] == Indices(g.run);
  }

  lemma RunMember(g: Grouping, v: nat) returns (r: nat)
    requires InSome(v, Close(g)) && !InSome(v, g.done)
    ensures |g.run| >= 2 && r < |g.run| && g.run[r].1 == v
  {
    assert forall j :: 0 <= j < |g.done| ==> Close(g)[j] == g.done[j];
    var j :| 0 <= j < |Close(g)| && v in Close(g)[j];
    assert |g.run| >= 2 && Close(g)[j] == Indices(g.run);
    r :| 0 <= r < |g.run| && Indices(g.run)[r] == v;
  }

  /** The step at item `k - 1` when that item starts a new run. */
  lemma StepAtBreak(items: seq<(nat, nat)>, k: nat)
    requires 2 <= k <= |items| && StartsRun(items, k - 1)
    ensures GroupUpTo(items, k) == Grouping(Close(GroupUpTo(items, k - 1)), [items[k - 1]])
    ensures RunStart(items, k) == k - 1
  {
    GroupRunShape(items, k - 1);
  }

  /** The step at item `k - 1` when that item extends the current run. */
  lemma StepInRun(items: seq<(nat, nat)>, k: nat)
    requires 2 <= k <= |items| && !StartsRun(items, k - 1)
    ensures GroupUpTo(items, k).done == GroupUpTo(items, k - 1).done
    ensures RunStart(items, k) == RunStart(items, k - 1)
  {
    GroupRunShape(items, k - 1);
  }

  /** Items before the current run that have a neighbour are in a finished
      sequence. */
  lemma {:induction false} GroupDoneComplete(items: seq<(nat, nat)>, k: nat, p: nat)
    requires 1 <= k <= |items| && p < RunStart(items, k) && HasNeighbour(items, p)
    ensures InSome(items[p].1, GroupUpTo(items, k).done)
  {
    var g := GroupUpTo(items, k - 1);
    if StartsRun(items, k - 1) {
      StepAtBreak(items, k);
      var s0 := RunStart(items, k - 1);
      if p < s0 {
        GroupDoneComplete(items, k - 1, p);
        CloseKeepsDone(g, items[p].1);
      } else {
        GroupRunShape(items, k - 1);
        RunNeighbours(items, s0, k - 1, p);
        CloseKeepsRun(g, p - s0);
      }
    } else {
      StepInRun(items, k);
      GroupDoneComplete(items, k - 1, p);
    }
  }

  /** An index of the run that item `k - 1` closes belongs to an item of that
      run, which has a neighbour. */
  lemma ClosedRunSound(items: seq<(nat, nat)>, k: nat, v: nat)
    requires 2 <= k <= |items| && StartsRun(items, k - 1)
    requires InSome(v, Close(GroupUpTo(items, k - 1))) && !InSome(v, GroupUpTo(items, k - 1).done)
    ensures exists q :: 0 <= q < k - 1 && items[q].1 == v && HasNeighbour(items, q)
  {
    GroupRunShape(items, k - 1);
    RunClosedSound(items, k, GroupUpTo(items, k - 1), v);
  }

  /** `ClosedRunSound` for any grouping whose run is the run of item `k - 2`. */
  lemma RunClosedSound(items: seq<(nat, nat)>, k: nat, g: Grouping, v: nat)
    requires 2 <= k <= |items| && StartsRun(items, k - 1)
    requires g.run == items[RunStart(items, k - 1)..k - 1]
    requires InSome(v, Close(g)) && !InSome(v, g.done)
    ensures exists q :: 0 <= q < k - 1 && items[q].1 == v && HasNeighbour(items, q)
  {
    var s0 := RunStart(items, k - 1);
    var r := RunMember(g, v);
    assert g.run[r] == items[s0 + r];
    RunNeighbours(items, s0, k - 1, s0 + r);
    assert items[s0 + r].1 == v && HasNeighbour(items, s0 + r);
  }

  /** Every index in a finished sequence belongs to an item before the current
      run that has a neighbour. */
  lemma {:induction false} GroupDoneSound(items: seq<(nat, nat)>, k: nat, v: nat)
    requires 1 <= k <= |items|
    ensures InSome(v, GroupUpTo(items, k).done) ==>
              exists q :: 0 <= q < RunStart(items, k) && items[q].1 == v && HasNeighbour(items, q)
  {
    if k == 1 {
      assert GroupUpTo(items, k).done == [];
    } else if StartsRun(items, k - 1) {
      StepAtBreak(items, k);
      GroupDoneSound(items, k - 1, v);
      if !InSome(v, GroupUpTo(items, k - 1).done) && InSome(v, GroupUpTo(items, k).done) {
        ClosedRunSound(items, k, v);
      }
    } else {
      StepInRun(items, k);
      GroupDoneSound(items, k - 1, v);
    }
  }

  /** Every sequence has at least two indices. */
  lemma SequencesLong(items: seq<(nat, nat)>, j: nat)
    requires j < |Sequences(items)|
    ensures |Sequences(items)[j]| >= 2
  {
    GroupDoneLong(items, |items|);
  }

  /** An item with a neighbour whose number differs by one is in a sequence. */
  lemma SequencesComplete(items: seq<(nat, nat)>, p: nat)
    requires p < |items| && HasNeighbour(items, p)
    ensures InSome(items[p].1, Sequences(items))
  {
    var k := |items|;
    var g := GroupUpTo(items, k);
    var s := RunStart(items, k);
    if p < s {
      GroupDoneComplete(items, k, p);
      CloseKeepsDone(g, items[p].1);
    } else {
      GroupRunShape(items, k);
      RunNeighbours(items, s, k, p);
      CloseKeepsRun(g, p - s);
    }
  }

  /** Every index in a sequence belongs to an item with such a neighbour. */
  lemma SequencesSound(items: seq<(nat, nat)>, v: nat)
    requires InSome(v, Sequences(items))
    ensures exists q :: 0 <= q < |items| && items[q].1 == v && HasNeighbour(items, q)
  {
    var k := |items|;
    var g := GroupUpTo(items, k);
    if InSome(v, g.done) {
      GroupDoneSound(items, k, v);
    } else {
      var r := RunMember(g, v);
      GroupRunShape(items, k);
      var s := RunStart(items, k);
      RunNeighbours(items, s, k, s + r);
      assert items[s + r].1 == v;
    }
  }

  /** A heading in a numbered sequence is a numbered heading, and some other
      numbered heading carries the number just before or just after its own. */
  lemma NumberedSequenceMember(dets: seq<Detection>, v: nat)
    requires InSome(v, NumberedSequences(dets))
    ensures v < |dets| && IsNumberedItem(dets[v])
    ensures exists w :: 0 <= w < |dets| && IsNumberedItem(dets[w])
              && (dets[w].number == dets[v].number + 1 || dets[w].number + 1 == dets[v].number)
  {
    var items := SortedItems(dets);
    SequencesSound(items, v);
    var q :| 0 <= q < |items| && items[q].1 == v && HasNeighbour(items, q);
    assert items[q] in items;
    if q > 0 && items[q - 1].0 + 1 == items[q].0 {
      assert items[q - 1] in items;
    } else {
      assert items[q + 1] in items;
    }
  }

  /** `_find_numbered_sequences()`: collects the numbered headings, sorts them
      by number and groups consecutive numbers, keeping runs of two or more. */
  method FindNumberedSequences(dets: seq<Detection>) returns (sequences: seq<seq<nat>>)
    ensures sequences == NumberedSequences(dets)
    ensures forall j :: 0 <= j < |sequences| ==> |sequences[j]| >= 2
  {
    var numbered := CollectNumbered(dets);
    var items := SortBy(numbered, ItemKey);
    assert items == SortedItems(dets);
    sequences := GroupRuns(items);
    forall j | 0 <= j < |sequences| ensures |sequences[j]| >= 2 {
      SequencesLong(items, j);
    }
  }

  /** The collecting loop: the numbered headings with their positions. */
  method CollectNumbered(dets: seq<Detection>) returns (numbered: seq<(nat, nat)>)
    ensures numbered == NumberedItems(dets)
  {
    numbered := [];
    var i := 0;
    while i < |dets|
      invariant 0 <= i <= |dets|
      invariant numbered == NumberedItems(dets[..i])
    {
      assert dets[..i + 1][..i] == dets[..i];
      if IsNumberedItem(dets[i]) {
        numbered := numbered + [(dets[i].number, i)];
      }
      i := i + 1;
    }
    assert dets[..|dets|] == dets;
  }

  /** The grouping loop over the sorted items, then the last open run. */
  method GroupRuns(items: seq<(nat, nat)>) returns (sequences: seq<seq<nat>>)
    ensures sequences == Sequences(items)
  {
    sequences := [];
    var current: seq<(nat, nat)> := [];
    var k := 0;
    while k < |items|
      invariant 0 <= k <= |items|
      invariant Grouping(sequences, current) == GroupUpTo(items, k)
    {
      var x := items[k];
      if current == [] || x.0 == current[|current| - 1].0 + 1 {
        current := current + [x];
      } else {
        if |current| >= 2 {
          sequences := sequences + [Indices(current)];
        }
        current := [x];
      }
      k := k + 1;
    }
    if |current| >= 2 {
      sequences := sequences + [Indices(current)];
    }
  }

  /** `_get_sequential_numbers()`: the positive numbers of the headings in
      the sequences. */
  function SequentialNumbers(dets: seq<Detection>, sequences: seq<seq<nat>>): (r: set<nat>)
    ensures forall n :: n in r <==> n > 0 && exists v: nat :: InSome(v, sequences) && v < |dets| && dets[v].number == n
  {
    set j, v | 0 <= j < |sequences| && v in sequences[j] && v < |dets| && dets[v].number > 0 :: dets[v].number
  }

  /** The positive numbers of the headings whose indices are in `run`. */
  function RunNumbers(dets: seq<Detection>, run: seq<nat>): set<nat> {
    set v | v in run && v < |dets| && dets[v].number > 0 :: dets[v].number
  }

  lemma RunNumbersStep(dets: seq<Detection>, run: seq<nat>, k: nat)
    requires k < |run|
    ensures RunNumbers(dets, run[..k + 1]) ==
              RunNumbers(dets, run[..k])
              + (if run[k] < |dets| && dets[run[k]].number > 0 then {dets[run[k]].number} else {})
  {
    assert run[..k + 1] == run[..k] + [run[k]];
  }

  lemma SequentialNumbersStep(dets: seq<Detection>, sequences: seq<seq<nat>>, i: nat)
    requires i < |sequences|
    ensures SequentialNumbers(dets, sequences[..i + 1]) ==
              SequentialNumbers(dets, sequences[..i]) + RunNumbers(dets, sequences[i])
  {
    var a := SequentialNumbers(dets, sequences[..i + 1]);
    var b := SequentialNumbers(dets, sequences[..i]) + RunNumbers(dets, sequences[i]);
    forall n | n in a ensures n in b {
      var v: nat :| InSome(v, sequences[..i + 1]) && v < |dets| && dets[v].number == n;
      var j :| 0 <= j < i + 1 && v in sequences[..i + 1][j];
      if j < i {
        assert v in sequences[..i][j];
      }
    }
    forall n | n in b ensures n in a {
      if n in RunNumbers(dets, sequences[i]) {
        var v :| v in sequences[i] && v < |dets| && dets[v].number > 0 && dets[v].number == n;
        assert v in sequences[..i + 1][i];
      } else {
        var v: nat :| InSome(v, sequences[..i]) && v < |dets| && dets[v].number == n;
        var j :| 0 <= j < i && v in sequences[..i][j];
        assert v in sequences[..i + 1][j];
      }
    }
  }

  /** `_get_sequential_numbers()` as the source runs it: over the sequences
      and their indices, adding every positive number. */
  method GetSequentialNumbers(dets: seq<Detection>, sequences: seq<seq<nat>>) returns (nums: set<nat>)
    ensures nums == SequentialNumbers(dets, sequences)
  {
    nums := {};
    var i := 0;
    while i < |sequences|
      invariant i <= |sequences|
      invariant nums == SequentialNumbers(dets, sequences[..i])
    {
      var run := sequences[i];
      var before := nums;
      var k := 0;
      while k < |run|
        invariant k <= |run|
        invariant nums == before + RunNumbers(dets, run[..k])
      {
        var v := run[k];
        RunNumbersStep(dets, run, k);
        if v < |dets| && dets[v].number > 0 {
          nums := nums + {dets[v].number};
        }
        k := k + 1;
      }
      assert run[..k] == run;
      SequentialNumbersStep(dets, sequences, i);
      i := i + 1;
    }
    assert sequences[..i] == sequences;
  }

  // ---------------------------------------------------------------------
  // Common prefixes
  // ---------------------------------------------------------------------

  /** The group key of a heading whose stripped text starts with `\d+\.\d+`:
      `"section_"` followed by the digits before the dot. */
  function PrefixKey(text: string): Option<string> {
    var t := Strip(text);
    var d := DigitRun(t);
    if 0 < d && d + 1 < |t| && t[d] == '.' && IsDigit(t[d + 1]) then Some("section_" + t[..d]) else None
  }

  /** The prefix key of every heading text, in heading order. */
  function PrefixKeys(texts: seq<string>): (r: seq<Option<string>>)
    ensures |r| == |texts| && forall i :: 0 <= i < |texts| ==> r[i] == PrefixKey(texts[i])
  {
    seq(|texts|, i requires 0 <= i < |texts| => PrefixKey(texts[i]))
  }

  /** The groups after the first `k` headings: each key with the indices that
      have it, in order. */
  function PrefixGroups(keys: seq<Option<string>>, k: nat): map<string, seq<nat>>
    requires k <= |keys|
  {
    if k == 0 then map[]
    else
      var g := PrefixGroups(keys, k - 1);
      match keys[k - 1]
      case None => g
      case Some(key) => g[key := (if key in g then g[key] else []) + [k - 1]]
  }

  /** `_find_common_prefixes()`, given the prefix key of every heading: only
      the groups with two members or more. */
  function CommonPrefixes(keys: seq<Option<string>>): map<string, seq<nat>> {
    var g := PrefixGroups(keys, |keys|);
    map key | key in g && |g[key]| >= 2 :: g[key]
  }

  /** Heading `i` is in some group of `m`. */
  predicate InGroup(i: nat, m: map<string, seq<nat>>) {
    exists key :: key in m && i in m[key]
  }

  ghost predicate Increasing(s: seq<nat>) {
    forall a, b :: 0 <= a < b < |s| ==> s[a] < s[b]
  }

  /** A group holds exactly the earlier headings with its key, in order. */
  lemma {:induction false} PrefixGroupMembers(keys: seq<Option<string>>, k: nat, key: string)
    requires k <= |keys|
    ensures key in PrefixGroups(keys, k) <==> exists i :: 0 <= i < k && keys[i] == Some(key)
    ensures key in PrefixGroups(keys, k) ==>
              Increasing(PrefixGroups(keys, k)[key])
              && forall i :: i in PrefixGroups(keys, k)[key] <==> 0 <= i < k && keys[i] == Some(key)
  {
    if k > 0 {
      PrefixGroupMembers(keys, k - 1, key);
      var g := PrefixGroups(keys, k - 1);
      if keys[k - 1] == Some(key) {
        var before := if key in g then g[key] else [];
        var s := before + [k - 1];
        assert PrefixGroups(keys, k)[key] == s;
        assert forall i :: i in before ==> i < k - 1;
        assert Increasing(s) by {
          forall a, b | 0 <= a < b < |s| ensures s[a] < s[b] {
            if b < |before| {
            } else {
              assert s[a] in before;
            }
          }
        }
      }
    }
  }

  /** An increasing sequence has two members or more exactly when it holds two
      different values. */
  lemma TwoMembers(s: seq<nat>)
    requires Increasing(s)
    ensures |s| >= 2 <==> exists a, b :: a in s && b in s && a != b
  {
    if |s| >= 2 {
      assert s[0] in s && s[1] in s;
    }
  }

  /** A heading is in a kept prefix group exactly when it has a prefix key and
      some other heading has the same key. */
  lemma CommonPrefixMembership(keys: seq<Option<string>>, i: nat)
    requires i < |keys|
    ensures InGroup(i, CommonPrefixes(keys)) <==>
              keys[i].Some? && exists j :: 0 <= j < |keys| && j != i && keys[j] == keys[i]
  {
    var g := PrefixGroups(keys, |keys|);
    var m := CommonPrefixes(keys);
    if InGroup(i, m) {
      var key :| key in m && i in m[key];
      PrefixGroupMembers(keys, |keys|, key);
      TwoMembers(g[key]);
      var a, b :| a in g[key] && b in g[key] && a != b;
      if a != i {
        assert keys[a] == keys[i];
      } else {
        assert keys[b] == keys[i];
      }
    }
    if keys[i].Some? && exists j :: 0 <= j < |keys| && j != i && keys[j] == keys[i] {
      var key := keys[i].value;
      var j :| 0 <= j < |keys| && j != i && keys[j] == keys[i];
      PrefixGroupMembers(keys, |keys|, key);
      TwoMembers(g[key]);
      assert key in m && i in m[key];
    }
  }

  /** `_find_common_prefixes()`: collects each heading's prefix key into its
      group, then keeps the groups with two members or more. */
  method FindCommonPrefixes(keys: seq<Option<string>>) returns (groups: map<string, seq<nat>>)
    ensures groups == CommonPrefixes(keys)
  {
    var prefixGroups: map<string, seq<nat>> := map[];
    var i := 0;
    while i < |keys|
      invariant 0 <= i <= |keys|
      invariant prefixGroups == PrefixGroups(keys, i)
    {
      var key := keys[i];
      if key.Some? {
        var members := if key.value in prefixGroups then prefixGroups[key.value] else [];
        prefixGroups := prefixGroups[key.value := members + [i]];
      }
      i := i + 1;
    }
    groups := map key | key in prefixGroups && |prefixGroups[key]| >= 2 :: prefixGroups[key];
  }
}
