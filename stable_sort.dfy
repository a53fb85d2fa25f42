/**
 * The ordering both `prioritizeSignals` and `getLeaderboard` rely on:
 * `Array.prototype.sort` with a comparator `key(b) - key(a)`, which ECMAScript
 * requires to be stable. It is specified here as insertion sort, processing
 * the input left to right, so that equal keys keep their relative order.
 */
module StableSort {

  /** Non-increasing by `key`. */
  ghost predicate SortedDesc<T>(s: seq<T>, key: T -> real)
  {
    forall i, j :: 0 <= i < j < |s| ==> key(s[i]) >= key(s[j])
  }

  /** The elements of `s` whose key is exactly `k`, in order. */
  function WithKey<T>(s: seq<T>, key: T -> real, k: real): (r: seq<T>)
    ensures |r| <= |s|
    decreases |s|
  {
    if |s| == 0 then []
    else WithKey(s[..|s| - 1], key, k) + (if key(s[|s| - 1]) == k then [s[|s| - 1]] else [])
  }

  /**
   * Places `x` after every element of `s` whose key is at least `key(x)`:
   * walking from the right end, it passes only elements with a strictly
   * smaller key.
   */
  function Insert<T>(s: seq<T>, x: T, key: T -> real): (r: seq<T>)
    ensures |r| == |s| + 1
    decreases |s|
  {
    if |s| == 0 || key(s[|s| - 1]) >= key(x) then s + [x]
    else Insert(s[..|s| - 1], x, key) + [s[|s| - 1]]
  }

  /** The stable sort by non-increasing key. */
  function SortDesc<T>(s: seq<T>, key: T -> real): (r: seq<T>)
    ensures |r| == |s|
    decreases |s|
  {
    if |s| == 0 then [] else Insert(SortDesc(s[..|s| - 1], key), s[|s| - 1], key)
  }

  /**
   * Where `x` lands: after the prefix `s[..j]`, when the element before it
   * has a key at least `key(x)` and every element from `j` on a smaller key.
   */
  lemma {:induction false} InsertSplit<T>(s: seq<T>, x: T, j: nat, key: T -> real)
    requires j <= |s|
    requires j == 0 || key(s[j - 1]) >= key(x)
    requires forall m :: j <= m < |s| ==> key(s[m]) < key(x)
    ensures Insert(s, x, key) == s[..j] + [x] + s[j..]
    decreases |s|
  {
    if j == |s| {
      assert s[..j] == s && s[j..] == [];
    } else {
      var init := s[..|s| - 1];
      var last := s[|s| - 1];
      assert key(last) < key(x);
      InsertSplit(init, x, j, key);
      assert init[..j] == s[..j];
      assert init[j..] + [last] == s[j..];
    }
  }

  lemma {:induction false} InsertPermutes<T>(s: seq<T>, x: T, key: T -> real)
    ensures multiset(Insert(s, x, key)) == multiset(s) + multiset{x}
    decreases |s|
  {
    if |s| == 0 || key(s[|s| - 1]) >= key(x) {
    } else {
      var init := s[..|s| - 1];
      InsertPermutes(init, x, key);
      assert s == init + [s[|s| - 1]];
    }
  }

  lemma {:induction false} InsertSorted<T>(s: seq<T>, x: T, key: T -> real)
    requires SortedDesc(s, key)
    ensures SortedDesc(Insert(s, x, key), key)
    decreases |s|
  {
    if |s| == 0 || key(s[|s| - 1]) >= key(x) {
    } else {
      var init := s[..|s| - 1];
      var last := s[|s| - 1];
      InsertSorted(init, x, key);
      InsertPermutes(init, x, key);
      var ins := Insert(init, x, key);
      forall i | 0 <= i < |ins|
        ensures key(ins[i]) >= key(last)
      {
        assert ins[i] in multiset(ins);
        if ins[i] != x {
          assert ins[i] in multiset(init);
          var j :| 0 <= j < |init| && init[j] == ins[i];
        }
      }
    }
  }

  /** Inserting `x` keeps, for every key value, the order of that key's elements as if `x` were appended. */
  lemma {:induction false} InsertStable<T>(s: seq<T>, x: T, key: T -> real, k: real)
    ensures WithKey(Insert(s, x, key), key, k) == WithKey(s + [x], key, k)
    decreases |s|
  {
    assert (s + [x])[..|s + [x]| - 1] == s;
    if |s| == 0 || key(s[|s| - 1]) >= key(x) {
    } else {
      var init := s[..|s| - 1];
      var last := s[|s| - 1];
      var ins := Insert(init, x, key);
      assert (ins + [last])[..|ins + [last]| - 1] == ins;
      InsertStable(init, x, key, k);
      assert (init + [x])[..|init + [x]| - 1] == init;
      assert s == init + [last];
      assert s[..|s| - 1] == init;
    }
  }

  /** SortDesc returns a permutation of its input. */
  lemma {:induction false} SortPermutes<T>(s: seq<T>, key: T -> real)
    ensures multiset(SortDesc(s, key)) == multiset(s)
    decreases |s|
  {
    if |s| > 0 {
      var init := s[..|s| - 1];
      SortPermutes(init, key);
      InsertPermutes(SortDesc(init, key), s[|s| - 1], key);
      assert s == init + [s[|s| - 1]];
    }
  }

  /** SortDesc returns its input in non-increasing key order. */
  lemma {:induction false} SortSorted<T>(s: seq<T>, key: T -> real)
    ensures SortedDesc(SortDesc(s, key), key)
    decreases |s|
  {
    if |s| > 0 {
      SortSorted(s[..|s| - 1], key);
      InsertSorted(SortDesc(s[..|s| - 1], key), s[|s| - 1], key);
    }
  }

  /** SortDesc is stable: the elements sharing any one key appear in their input order. */
  lemma {:induction false} SortStable<T>(s: seq<T>, key: T -> real, k: real)
    ensures WithKey(SortDesc(s, key), key, k) == WithKey(s, key, k)
    decreases |s|
  {
    if |s| > 0 {
      var init := s[..|s| - 1];
      var last := s[|s| - 1];
      var sorted := SortDesc(init, key);
      InsertStable(sorted, last, key, k);
      SortStable(init, key, k);
      assert (sorted + [last])[..|sorted + [last]| - 1] == sorted;
    }
  }
}
