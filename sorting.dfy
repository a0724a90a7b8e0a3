/** Python's `sorted`/`list.sort` with a key, `sorted(set(...))` and
    `statistics.median`, over exact reals. Sort keys are tuples of numbers,
    modelled as `seq<real>` compared lexicographically as Python compares
    tuples; the sort is stable, as Python's is. */
module Sorting {

  // ---------------------------------------------------------------------
  // Lexicographic order on numeric tuples
  // ---------------------------------------------------------------------

  /** `a <= b` for two tuples of numbers. */
  predicate LexLe(a: seq<real>, b: seq<real>)
    decreases |a|
  {
    a == [] || (b != [] && (a[0] < b[0] || (a[0] == b[0] && LexLe(a[1..], b[1..]))))
  }

  lemma {:induction false} LexLeTotal(a: seq<real>, b: seq<real>)
    requires |a| == |b|
    ensures LexLe(a, b) || LexLe(b, a)
    decreases |a|
  {
    if a != [] && a[0] == b[0] {
      LexLeTotal(a[1..], b[1..]);
    }
  }

  lemma {:induction false} LexLeTrans(a: seq<real>, b: seq<real>, c: seq<real>)
    requires LexLe(a, b) && LexLe(b, c)
    ensures LexLe(a, c)
    decreases |a|
  {
    if a != [] && b != [] && c != [] && a[0] == b[0] && b[0] == c[0] {
      LexLeTrans(a[1..], b[1..], c[1..]);
    }
  }

  /** What `a <= b` means for two pairs. */
  lemma LexLePair(a0: real, a1: real, b0: real, b1: real)
    requires LexLe([a0, a1], [b0, b1])
    ensures a0 < b0 || (a0 == b0 && a1 <= b1)
  {
    assert [a0, a1][1..] == [a1] && [b0, b1][1..] == [b1];
  }

  // ---------------------------------------------------------------------
  // Stable sort by key
  // ---------------------------------------------------------------------

  /** The elements of `s` are in key order. */
  ghost predicate SortedBy<T>(s: seq<T>, key: T -> seq<real>) {
    forall i, j :: 0 <= i < j < |s| ==> LexLe(key(s[i]), key(s[j]))
  }

  /** Insert `x` before the first element whose key is not smaller. */
  function InsertBy<T>(x: T, s: seq<T>, key: T -> seq<real>): (r: seq<T>)
    ensures |r| == |s| + 1
    ensures multiset(r) == multiset(s) + multiset{x}
  {
    if s == [] then [x]
    else if LexLe(key(x), key(s[0])) then [x] + s
    else
      assert s == [s[0]] + s[1..];
      [s[0]] + InsertBy(x, s[1..], key)
  }

  /** `sorted(s, key=key)`: a stable insertion sort. */
  function SortBy<T>(s: seq<T>, key: T -> seq<real>): (r: seq<T>)
    ensures |r| == |s|
    ensures multiset(r) == multiset(s)
  {
    if s == [] then []
    else
      assert s == [s[0]] + s[1..];
      InsertBy(s[0], SortBy(s[1..], key), key)
  }

  /** All keys of one sort have the same length, so the key order is total. */
  ghost predicate UniformKey<T>(s: seq<T>, key: T -> seq<real>) {
    forall i, j :: 0 <= i < |s| && 0 <= j < |s| ==> |key(s[i])| == |key(s[j])|
  }

  lemma {:induction false} InsertBySorted<T>(x: T, s: seq<T>, key: T -> seq<real>)
    requires SortedBy(s, key)
    requires forall y :: y in s ==> |key(y)| == |key(x)|
    ensures SortedBy(InsertBy(x, s, key), key)
  {
    if s == [] {
    } else if LexLe(key(x), key(s[0])) {
      forall j | 1 <= j < |s| + 1 ensures LexLe(key(([x] + s)[0]), key(([x] + s)[j])) {
        if j > 1 { LexLeTrans(key(x), key(s[0]), key(s[j - 1])); }
      }
    } else {
      assert s[0] in s;
      LexLeTotal(key(x), key(s[0]));
      forall y | y in s[1..] ensures |key(y)| == |key(x)| { assert y in s; }
      InsertBySorted(x, s[1..], key);
      var rest := InsertBy(x, s[1..], key);
      forall j | 0 <= j < |rest| ensures LexLe(key(s[0]), key(rest[j])) {
        assert rest[j] in multiset(rest);
        if rest[j] == x {
        } else {
          assert rest[j] in multiset(s[1..]);
          var k :| 1 <= k < |s| && s[k] == rest[j];
        }
      }
    }
  }

  /** The result of `SortBy` is in key order. */
  lemma {:induction false} SortByIsSorted<T>(s: seq<T>, key: T -> seq<real>)
    requires UniformKey(s, key)
    ensures SortedBy(SortBy(s, key), key)
  {
    if s != [] {
      assert UniformKey(s[1..], key) by {
        forall i, j | 0 <= i < |s[1..]| && 0 <= j < |s[1..]| ensures |key(s[1..][i])| == |key(s[1..][j])| {
          assert s[1..][i] == s[i + 1] && s[1..][j] == s[j + 1];
        }
      }
      SortByIsSorted(s[1..], key);
      var sorted := SortBy(s[1..], key);
      forall y | y in sorted ensures |key(y)| == |key(s[0])| {
        assert y in multiset(s[1..]);
        var k :| 1 <= k < |s| && s[k] == y;
      }
      InsertBySorted(s[0], sorted, key);
    }
  }

  /** The elements of `s` whose key is `v`, in order. */
  function WithKey<T>(s: seq<T>, key: T -> seq<real>, v: seq<real>): seq<T> {
    if s == [] then [] else (if key(s[0]) == v then [s[0]] else []) + WithKey(s[1..], key, v)
  }

  lemma {:induction false} LexLeRefl(a: seq<real>)
    ensures LexLe(a, a)
    decreases |a|
  {
    if a != [] {
      LexLeRefl(a[1..]);
    }
  }

  lemma WithKeyCons<T>(a: T, t: seq<T>, key: T -> seq<real>, v: seq<real>)
    ensures WithKey([a] + t, key, v) == (if key(a) == v then [a] else []) + WithKey(t, key, v)
  {
    assert ([a] + t)[1..] == t;
  }

  /** Inserting `x` puts it before every element with the same key. */
  lemma {:induction false} InsertByWithKey<T>(x: T, s: seq<T>, key: T -> seq<real>, v: seq<real>)
    ensures WithKey(InsertBy(x, s, key), key, v)
            == (if key(x) == v then [x] else []) + WithKey(s, key, v)
    decreases |s|, 1
  {
    if s == [] {
      WithKeyCons(x, [], key, v);
    } else if LexLe(key(x), key(s[0])) {
      WithKeyCons(x, s, key, v);
    } else {
      InsertBySkip(x, s, key, v);
    }
  }

  /** The case where `x` goes after the first element. */
  lemma {:induction false} InsertBySkip<T>(x: T, s: seq<T>, key: T -> seq<real>, v: seq<real>)
    requires s != [] && !LexLe(key(x), key(s[0]))
    ensures WithKey(InsertBy(x, s, key), key, v)
            == (if key(x) == v then [x] else []) + WithKey(s, key, v)
    decreases |s|, 0
  {
    var rest := InsertBy(x, s[1..], key);
    InsertByAfter(x, s, key);
    var xs: seq<T> := if key(x) == v then [x] else [];
    var firsts: seq<T> := if key(s[0]) == v then [s[0]] else [];
    WithKeyCons(s[0], rest, key, v);
    InsertByWithKey(x, s[1..], key, v);
    assert s == [s[0]] + s[1..];
    WithKeyCons(s[0], s[1..], key, v);
    if key(x) == v {
      LexLeRefl(v);
    }
    SwapFront(firsts, xs, WithKey(s[1..], key, v));
  }

  lemma InsertByAfter<T>(x: T, s: seq<T>, key: T -> seq<real>)
    requires s != [] && !LexLe(key(x), key(s[0]))
    ensures InsertBy(x, s, key) == [s[0]] + InsertBy(x, s[1..], key)
  {
  }

  lemma SwapFront<T>(a: seq<T>, b: seq<T>, w: seq<T>)
    requires a == [] || b == []
    ensures a + (b + w) == b + (a + w)
  {
  }

  /** `sorted` is stable: the elements sharing any one key keep their input
      order. */
  lemma {:induction false} SortByStable<T>(s: seq<T>, key: T -> seq<real>, v: seq<real>)
    ensures WithKey(SortBy(s, key), key, v) == WithKey(s, key, v)
  {
    if s != [] {
      SortByStable(s[1..], key, v);
      InsertByWithKey(s[0], SortBy(s[1..], key), key, v);
      assert s == [s[0]] + s[1..];
      WithKeyCons(s[0], s[1..], key, v);
    }
  }

  /** The first element of `WithKey(s, key, v)` is the first element of `s`
      with key `v`. */
  lemma {:induction false} WithKeyHead<T>(s: seq<T>, key: T -> seq<real>, v: seq<real>)
    requires WithKey(s, key, v) != []
    ensures exists i :: 0 <= i < |s| && s[i] == WithKey(s, key, v)[0] && key(s[i]) == v
                        && forall j :: 0 <= j < i ==> key(s[j]) != v
  {
    if key(s[0]) != v {
      WithKeyHead(s[1..], key, v);
      var i :| 0 <= i < |s[1..]| && s[1..][i] == WithKey(s[1..], key, v)[0] && key(s[1..][i]) == v
                && forall j :: 0 <= j < i ==> key(s[1..][j]) != v;
      assert s[i + 1] == s[1..][i];
      forall j | 0 <= j < i + 1 ensures key(s[j]) != v {
        if j > 0 { assert s[j] == s[1..][j - 1]; }
      }
    }
  }

  /** The first element of the sorted sequence is the first element of the
      input whose key is least: `sorted(s, key=key)[0] == min(s, key=key)`. */
  lemma SortByFirst<T>(s: seq<T>, key: T -> seq<real>)
    requires s != [] && UniformKey(s, key)
    ensures exists i :: 0 <= i < |s| && SortBy(s, key)[0] == s[i]
                        && (forall c :: c in s ==> LexLe(key(s[i]), key(c)))
                        && (forall j :: 0 <= j < i ==> key(s[j]) != key(s[i]))
  {
    var sorted := SortBy(s, key);
    var v := key(sorted[0]);
    SortByIsSorted(s, key);
    assert sorted[0] in multiset(s);
    forall c | c in s ensures LexLe(v, key(c)) {
      assert c in multiset(sorted);
      var j :| 0 <= j < |sorted| && sorted[j] == c;
      if j == 0 { LexLeRefl(v); }
    }
    assert WithKey(sorted, key, v) == [sorted[0]] + WithKey(sorted[1..], key, v);
    SortByStable(s, key, v);
    WithKeyHead(s, key, v);
  }

  // ---------------------------------------------------------------------
  // sorted(set(xs))
  // ---------------------------------------------------------------------

  ghost predicate StrictlyIncreasing(s: seq<real>) {
    forall i, j :: 0 <= i < j < |s| ==> s[i] < s[j]
  }

  ghost predicate StrictlyDecreasing(s: seq<real>) {
    forall i, j :: 0 <= i < j < |s| ==> s[i] > s[j]
  }

  /** Insert `x` into a strictly increasing sequence unless it is already there. */
  function InsertDistinct(x: real, s: seq<real>): (r: seq<real>)
    requires StrictlyIncreasing(s)
    ensures StrictlyIncreasing(r)
    ensures forall v :: v in r <==> v == x || v in s
  {
    if s == [] then [x]
    else if x < s[0] then [x] + s
    else if x == s[0] then s
    else
      var rest := InsertDistinct(x, s[1..]);
      assert forall i :: 0 <= i < |rest| ==> s[0] < rest[i] by {
        forall i | 0 <= i < |rest| ensures s[0] < rest[i] {
          assert rest[i] in rest;
        }
      }
      [s[0]] + rest
  }

  /** `sorted(set(xs))` */
  function DistinctAsc(xs: seq<real>): (r: seq<real>)
    ensures StrictlyIncreasing(r)
    ensures forall v :: v in r <==> v in xs
  {
    if xs == [] then [] else InsertDistinct(xs[0], DistinctAsc(xs[1..]))
  }

  /** `sorted(set(xs), reverse=True)` */
  function DistinctDesc(xs: seq<real>): (r: seq<real>)
    ensures StrictlyDecreasing(r)
    ensures |r| == |DistinctAsc(xs)|
    ensures forall v :: v in r <==> v in xs
  {
    var a := DistinctAsc(xs);
    var r := seq(|a|, i requires 0 <= i < |a| => a[|a| - 1 - i]);
    assert forall v :: v in r <==> v in a by {
      forall v ensures v in r <==> v in a {
        if v in a {
          var i :| 0 <= i < |a| && a[i] == v;
          assert r[|a| - 1 - i] == v;
        }
      }
    }
    r
  }

  /** `sorted` puts plain numbers in ascending order. */
  lemma SortRealsAscending(xs: seq<real>, i: nat, j: nat)
    requires i <= j < |xs|
    ensures SortReals(xs)[i] <= SortReals(xs)[j]
  {
    assert UniformKey(xs, Single);
    SortByIsSorted(xs, Single);
    if i < j {
      assert LexLe(Single(SortReals(xs)[i]), Single(SortReals(xs)[j]));
    }
  }

  lemma SortRealsMember(xs: seq<real>, i: nat)
    requires i < |xs|
    ensures SortReals(xs)[i] in xs
  {
    assert SortReals(xs)[i] in multiset(SortReals(xs));
  }

  // ---------------------------------------------------------------------
  // statistics.median
  // ---------------------------------------------------------------------

  function Single(x: real): seq<real> { [x] }

  /** `sorted(s)` for plain numbers. */
  function SortReals(s: seq<real>): (r: seq<real>)
    ensures |r| == |s| && multiset(r) == multiset(s)
  {
    SortBy(s, Single)
  }

  /** `statistics.median(s)`: the middle element of the sorted data, or the
      mean of the two middle elements when the length is even. */
  function Median(s: seq<real>): real
    requires |s| > 0
  {
    var t := SortReals(s);
    var n := |t|;
    if n % 2 == 1 then t[n / 2] else (t[n / 2 - 1] + t[n / 2]) / 2.0
  }

  /** The median lies between the least and the greatest element. */
  lemma MedianBounds(s: seq<real>, lo: real, hi: real)
    requires |s| > 0
    requires forall i :: 0 <= i < |s| ==> lo <= s[i] <= hi
    ensures lo <= Median(s) <= hi
  {
    var t := SortReals(s);
    forall i | 0 <= i < |t| ensures lo <= t[i] <= hi {
      assert t[i] in multiset(s);
      var k :| 0 <= k < |s| && s[k] == t[i];
    }
  }
}
