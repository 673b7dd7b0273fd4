/**
 * The ordering both discovery engines apply to their scored results:
 * Python's `sorted(..., key=score, reverse=True)` and Java's
 * `list.sort(comparingDouble(score).reversed())`. Both library sorts are
 * stable, so results with equal scores keep the order in which they were
 * found. The sort is specified by insertion: each element, taken in input
 * order, goes just after every element already placed whose key is at
 * least its own.
 */
module StableSort {

  /** `x` placed before the first element of `s` whose key is strictly smaller. */
  function Insert<T>(s: seq<T>, x: T, key: T -> real): (r: seq<T>)
    ensures |r| == |s| + 1
    ensures multiset(r) == multiset(s) + multiset{x}
  {
    if s == [] then [x]
    else if key(s[0]) < key(x) then [x] + s
    else
      assert s == [s[0]] + s[1..];
      [s[0]] + Insert(s[1..], x, key)
  }

  /** Stable sort by non-increasing key. */
  function SortDesc<T>(xs: seq<T>, key: T -> real): (r: seq<T>)
    ensures |r| == |xs|
    ensures multiset(r) == multiset(xs)
  {
    if xs == [] then []
    else
      assert xs == xs[..|xs| - 1] + [xs[|xs| - 1]];
      Insert(SortDesc(xs[..|xs| - 1], key), xs[|xs| - 1], key)
  }

  ghost predicate NonIncreasing<T>(s: seq<T>, key: T -> real) {
    forall i, j :: 0 <= i < j < |s| ==> key(s[j]) <= key(s[i])
  }

  /** The elements of `s` whose key is `k`, in their order in `s`. */
  function WithKey<T>(s: seq<T>, k: real, key: T -> real): (r: seq<T>)
    ensures |r| <= |s|
  {
    if s == [] then [] else (if key(s[0]) == k then [s[0]] else []) + WithKey(s[1..], k, key)
  }

  lemma {:induction false} WithKeyAppend<T>(s: seq<T>, x: T, k: real, key: T -> real)
    ensures WithKey(s + [x], k, key) == WithKey(s, k, key) + (if key(x) == k then [x] else [])
  {
    if s != [] {
      assert (s + [x])[1..] == s[1..] + [x];
      WithKeyAppend(s[1..], x, k, key);
    }
  }

  lemma {:induction false} WithKeyAbsent<T>(s: seq<T>, k: real, key: T -> real)
    requires forall i :: 0 <= i < |s| ==> key(s[i]) < k
    ensures WithKey(s, k, key) == []
  {
    if s != [] {
      WithKeyAbsent(s[1..], k, key);
    }
  }

  lemma {:induction false} InsertSorted<T>(s: seq<T>, x: T, key: T -> real)
    requires NonIncreasing(s, key)
    ensures NonIncreasing(Insert(s, x, key), key)
  {
    if s != [] && key(s[0]) >= key(x) {
      InsertSorted(s[1..], x, key);
      var r := Insert(s, x, key);
      var t := Insert(s[1..], x, key);
      assert r == [s[0]] + t;
      forall j | 0 <= j < |t| ensures key(t[j]) <= key(s[0]) {
        assert t[j] in multiset(t);
        assert t[j] in multiset(s[1..]) + multiset{x};
        if t[j] in multiset(s[1..]) {
          var m :| 0 <= m < |s[1..]| && s[1..][m] == t[j];
          assert s[m + 1] == t[j];
        }
      }
    }
  }

  /** Sortedness one neighbour at a time, which unfolds step by step in the proofs below. */
  ghost predicate SortedDesc<T>(s: seq<T>, key: T -> real)
    decreases |s|
  {
    |s| <= 1 || (key(s[1]) <= key(s[0]) && SortedDesc(s[1..], key))
  }

  lemma {:induction false} NonIncreasingIsSorted<T>(s: seq<T>, key: T -> real)
    requires NonIncreasing(s, key)
    ensures SortedDesc(s, key)
    decreases |s|
  {
    if |s| > 1 {
      NonIncreasingTail(s, key);
      NonIncreasingIsSorted(s[1..], key);
    }
  }

  lemma {:induction false} SortedHeadMax<T>(s: seq<T>, key: T -> real)
    requires s != [] && SortedDesc(s, key)
    ensures forall i :: 0 <= i < |s| ==> key(s[i]) <= key(s[0])
    decreases |s|
  {
    if |s| > 1 {
      SortedHeadMax(s[1..], key);
      forall i | 1 <= i < |s| ensures key(s[i]) <= key(s[0]) {
        assert s[i] == s[1..][i - 1];
      }
    }
  }

  /** Inserting `x` into a sorted sequence puts it after every element with the same key. */
  lemma {:induction false} InsertKeepsTies<T>(s: seq<T>, x: T, k: real, key: T -> real)
    requires SortedDesc(s, key)
    ensures WithKey(Insert(s, x, key), k, key) == WithKey(s, k, key) + (if key(x) == k then [x] else [])
    decreases |s|
  {
    if s == [] {
    } else if key(s[0]) < key(x) {
      InsertFirstTies(s, x, k, key);
    } else {
      InsertKeepsTies(s[1..], x, k, key);
      InsertLaterTies(s, x, k, key);
    }
  }

  /** `x` goes after the head when the head's key is at least its own: the tail's ties carry over. */
  lemma InsertLaterTies<T>(s: seq<T>, x: T, k: real, key: T -> real)
    requires s != [] && key(x) <= key(s[0])
    requires WithKey(Insert(s[1..], x, key), k, key) == WithKey(s[1..], k, key) + (if key(x) == k then [x] else [])
    ensures WithKey(Insert(s, x, key), k, key) == WithKey(s, k, key) + (if key(x) == k then [x] else [])
  {
    var t := s[1..];
    var h := if key(s[0]) == k then [s[0]] else [];
    var added := if key(x) == k then [x] else [];
    WithKeyCons(s[0], Insert(t, x, key), k, key);
    WithKeyCons(s[0], t, k, key);
    assert s == [s[0]] + t;
    calc {
      WithKey(Insert(s, x, key), k, key);
      WithKey([s[0]] + Insert(t, x, key), k, key);
      h + WithKey(Insert(t, x, key), k, key);
      h + (WithKey(t, k, key) + added);
      { ConcatAssoc(h, WithKey(t, k, key), added); }
      (h + WithKey(t, k, key)) + added;
      WithKey(s, k, key) + added;
    }
  }

  /** `x` goes first when its key beats the head: no element before it shares its key. */
  lemma InsertFirstTies<T>(s: seq<T>, x: T, k: real, key: T -> real)
    requires SortedDesc(s, key) && s != [] && key(s[0]) < key(x)
    ensures WithKey([x] + s, k, key) == WithKey(s, k, key) + (if key(x) == k then [x] else [])
  {
    WithKeyCons(x, s, k, key);
    if key(x) == k {
      SortedHeadMax(s, key);
      WithKeyAbsent(s, k, key);
    }
  }

  lemma ConcatAssoc<T>(a: seq<T>, b: seq<T>, c: seq<T>)
    ensures a + (b + c) == (a + b) + c
  {
  }

  lemma WithKeyCons<T>(h: T, t: seq<T>, k: real, key: T -> real)
    ensures WithKey([h] + t, k, key) == (if key(h) == k then [h] else []) + WithKey(t, k, key)
  {
    assert ([h] + t)[1..] == t;
  }

  lemma NonIncreasingTail<T>(s: seq<T>, key: T -> real)
    requires s != [] && NonIncreasing(s, key)
    ensures NonIncreasing(s[1..], key)
  {
    var t := s[1..];
    forall i, j | 0 <= i < j < |t| ensures key(t[j]) <= key(t[i]) {
      assert t[i] == s[i + 1] && t[j] == s[j + 1];
    }
  }

  lemma {:induction false} SortDescSorted<T>(xs: seq<T>, key: T -> real)
    ensures NonIncreasing(SortDesc(xs, key), key)
  {
    if xs != [] {
      SortDescSorted(xs[..|xs| - 1], key);
      InsertSorted(SortDesc(xs[..|xs| - 1], key), xs[|xs| - 1], key);
    }
  }

  /** Stability: for every key, the elements carrying it appear in input order. */
  lemma {:induction false} SortDescStable<T>(xs: seq<T>, k: real, key: T -> real)
    ensures WithKey(SortDesc(xs, key), k, key) == WithKey(xs, k, key)
  {
    if xs != [] {
      var init, last := xs[..|xs| - 1], xs[|xs| - 1];
      assert init + [last] == xs;
      SortDescStable(init, k, key);
      SortDescSorted(init, key);
      StableStep(init, last, SortDesc(init, key), k, key);
    }
  }

  /** Inserting the next input element into a stable, sorted prefix keeps it stable. */
  lemma StableStep<T>(init: seq<T>, last: T, sorted: seq<T>, k: real, key: T -> real)
    requires NonIncreasing(sorted, key)
    requires WithKey(sorted, k, key) == WithKey(init, k, key)
    ensures WithKey(Insert(sorted, last, key), k, key) == WithKey(init + [last], k, key)
  {
    NonIncreasingIsSorted(sorted, key);
    InsertKeepsTies(sorted, last, k, key);
    WithKeyAppend(init, last, k, key);
  }

  /** The head of the sorted sequence carries the largest key of the input. */
  lemma HeadIsMaximal<T>(xs: seq<T>, key: T -> real)
    requires xs != []
    ensures forall i :: 0 <= i < |xs| ==> key(xs[i]) <= key(SortDesc(xs, key)[0])
  {
    var r := SortDesc(xs, key);
    SortDescSorted(xs, key);
    forall i | 0 <= i < |xs| ensures key(xs[i]) <= key(r[0]) {
      assert xs[i] in multiset(xs);
      assert xs[i] in multiset(r);
      var j :| 0 <= j < |r| && r[j] == xs[i];
    }
  }

  lemma {:induction false} WithKeyHead<T>(s: seq<T>, i: nat, k: real, key: T -> real)
    requires i < |s| && key(s[i]) == k
    requires forall j :: 0 <= j < i ==> key(s[j]) != k
    ensures WithKey(s, k, key) != [] && WithKey(s, k, key)[0] == s[i]
  {
    if i > 0 {
      WithKeyHead(s[1..], i - 1, k, key);
    }
  }

  /**
   * The head of the sorted sequence is the FIRST input element with the
   * largest key: the element a left-to-right scan keeping the first strict
   * maximum would pick.
   */
  lemma HeadIsFirstMaximal<T>(xs: seq<T>, i: nat, key: T -> real)
    requires i < |xs|
    requires forall j :: 0 <= j < |xs| ==> key(xs[j]) <= key(xs[i])
    requires forall j :: 0 <= j < i ==> key(xs[j]) < key(xs[i])
    ensures SortDesc(xs, key)[0] == xs[i]
  {
    var r := SortDesc(xs, key);
    var k := key(xs[i]);
    HeadIsMaximal(xs, key);
    assert r[0] in multiset(xs) by { assert r[0] in multiset(r); }
    assert key(r[0]) == k;
    WithKeyHead(r, 0, k, key);
    WithKeyHead(xs, i, k, key);
    SortDescStable(xs, k, key);
  }
}
