/** A `collections.Counter` of weighted level votes, as the title classifier
    uses it to combine its strategies: the counts in insertion order, and
    `most_common(1)`, which returns the first entry with the greatest count. */
module Voting {
  import opened Records

  /** The counter's entries in insertion order. */
  type Votes = seq<(Level, real)>

  /** The levels that have an entry. */
  function LevelsOf(v: Votes): set<Level> {
    if v == [] then {} else {v[0].0} + LevelsOf(v[1..])
  }

  /** No level has two entries. */
  predicate DistinctLevels(v: Votes) {
    v == [] || (v[0].0 !in LevelsOf(v[1..]) && DistinctLevels(v[1..]))
  }

  /** Every count is non-negative. */
  predicate NonNegative(v: Votes) {
    forall i :: 0 <= i < |v| ==> v[i].1 >= 0.0
  }

  /** `votes[l]`: the count of `l`, zero when it has no entry. */
  function Tally(v: Votes, l: Level): real {
    if v == [] then 0.0
    else (if v[0].0 == l then v[0].1 else 0.0) + Tally(v[1..], l)
  }

  /** `votes[l] += w`: adds to the entry of `l`, or appends one at the end. */
  function AddVote(v: Votes, l: Level, w: real): (r: Votes)
    ensures r != []
    ensures LevelsOf(r) == LevelsOf(v) + {l}
    ensures DistinctLevels(v) ==> DistinctLevels(r)
    ensures NonNegative(v) && w >= 0.0 ==> NonNegative(r)
  {
    if v == [] then [(l, w)]
    else if v[0].0 == l then
      assert ([(l, v[0].1 + w)] + v[1..])[1..] == v[1..];
      [(l, v[0].1 + w)] + v[1..]
    else
      var r := [v[0]] + AddVote(v[1..], l, w);
      assert r[1..] == AddVote(v[1..], l, w);
      r
  }

  /** Adding `w` for `l` raises the count of `l` by `w` and no other count. */
  lemma {:induction false} TallyAdd(v: Votes, l: Level, w: real, m: Level)
    ensures Tally(AddVote(v, l, w), m) == Tally(v, m) + (if m == l then w else 0.0)
  {
    if v != [] && v[0].0 != l {
      TallyAdd(v[1..], l, w, m);
      assert AddVote(v, l, w)[1..] == AddVote(v[1..], l, w);
    } else if v != [] {
      assert AddVote(v, l, w)[1..] == v[1..];
    }
  }

  /** `max(entries, key=count)`: the first entry whose count no entry exceeds. */
  function FirstMax(v: Votes): (e: (Level, real))
    requires v != []
  {
    if |v| == 1 then v[0]
    else
      var r := FirstMax(v[1..]);
      if r.1 > v[0].1 then r else v[0]
  }

  /** `most_common(1)[0]` is an entry whose count is the greatest and every
      entry before it has a smaller count. */
  lemma {:induction false} FirstMaxSpec(v: Votes)
    requires v != []
    ensures exists k :: 0 <= k < |v| && v[k] == FirstMax(v)
                        && (forall i :: 0 <= i < |v| ==> v[i].1 <= v[k].1)
                        && (forall i :: 0 <= i < k ==> v[i].1 < v[k].1)
  {
    if |v| == 1 {
      assert v[0] == FirstMax(v);
    } else {
      var t := v[1..];
      FirstMaxSpec(t);
      var k' :| 0 <= k' < |t| && t[k'] == FirstMax(t)
                && (forall i :: 0 <= i < |t| ==> t[i].1 <= t[k'].1)
                && (forall i :: 0 <= i < k' ==> t[i].1 < t[k'].1);
      assert forall i :: 1 <= i < |v| ==> v[i] == t[i - 1];
      if FirstMax(t).1 > v[0].1 {
        var k := k' + 1;
        assert v[k] == FirstMax(v);
        assert forall i :: 0 <= i < |v| ==> v[i].1 <= v[k].1;
        assert forall i :: 0 <= i < k ==> v[i].1 < v[k].1;
      } else {
        assert v[0] == FirstMax(v);
        assert forall i :: 0 <= i < |v| ==> v[i].1 <= v[0].1;
      }
    }
  }

  /** Every entry's level is among the levels. */
  lemma {:induction false} EntryInLevels(v: Votes, k: nat)
    requires k < |v|
    ensures v[k].0 in LevelsOf(v)
  {
    if k > 0 {
      EntryInLevels(v[1..], k - 1);
    }
  }

  /** A level with an entry has one at some position. */
  lemma {:induction false} LevelHasEntry(v: Votes, l: Level)
    requires l in LevelsOf(v)
    ensures exists k :: 0 <= k < |v| && v[k].0 == l
  {
    if v[0].0 != l {
      LevelHasEntry(v[1..], l);
      var k :| 0 <= k < |v[1..]| && v[1..][k].0 == l;
      assert v[k + 1].0 == l;
    }
  }

  /** With one entry per level, the count of an entry's level is its count. */
  lemma {:induction false} TallyOfEntry(v: Votes, k: nat)
    requires DistinctLevels(v) && k < |v|
    ensures Tally(v, v[k].0) == v[k].1
  {
    if k > 0 {
      TallyOfEntry(v[1..], k - 1);
      EntryInLevels(v[1..], k - 1);
    } else {
      TallyAbsent(v[1..], v[0].0);
    }
  }

  /** A level without an entry counts zero. */
  lemma {:induction false} TallyAbsent(v: Votes, l: Level)
    requires l !in LevelsOf(v)
    ensures Tally(v, l) == 0.0
  {
    if v != [] {
      TallyAbsent(v[1..], l);
    }
  }

  /** A level whose count exceeds every other level's count is the one
      `most_common(1)` returns. */
  lemma StrictWinner(v: Votes, l: Level)
    requires v != [] && DistinctLevels(v) && NonNegative(v)
    requires forall m :: m != l ==> Tally(v, l) > Tally(v, m)
    ensures FirstMax(v).0 == l
  {
    FirstMaxSpec(v);
    var k :| 0 <= k < |v| && v[k] == FirstMax(v)
             && (forall i :: 0 <= i < |v| ==> v[i].1 <= v[k].1);
    if v[k].0 != l {
      TallyOfEntry(v, k);
      if l in LevelsOf(v) {
        LevelHasEntry(v, l);
        var i :| 0 <= i < |v| && v[i].0 == l;
        TallyOfEntry(v, i);
      } else {
        TallyAbsent(v, l);
      }
      assert false;
    }
  }
}
