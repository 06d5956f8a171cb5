/**
 * The ranking behind `sorted(memes, key=score, reverse=True)[:top_n]`:
 * a stable sort into descending key order (ties keep their input order)
 * and Python's prefix slice.
 */
module Ranking {

  /** Keys never increase from left to right. */
  predicate SortedDesc<T>(s: seq<T>, key: T -> real) {
    forall i, j :: 0 <= i < j < |s| ==> key(s[i]) >= key(s[j])
  }

  /** The elements of `s` whose key is `k`, in their order in `s`. */
  function WithKey<T>(s: seq<T>, key: T -> real, k: real): seq<T> {
    if s == [] then []
    else (if key(s[0]) == k then [s[0]] else []) + WithKey(s[1..], key, k)
  }

  /**
   * A stable descending order of `s`: sorted by descending key, and for
   * every key the elements that carry it appear as they do in `s`.
   */
  ghost predicate StableDescendingOrderOf<T>(r: seq<T>, s: seq<T>, key: T -> real) {
    SortedDesc(r, key) && forall k :: WithKey(r, key, k) == WithKey(s, key, k)
  }

  /**
   * Puts `x` in front of the first element whose key is not above its own,
   * so that `x` stays before every element of equal key.
   */
  function Insert<T>(x: T, s: seq<T>, key: T -> real): (r: seq<T>)
    ensures multiset(r) == multiset(s) + multiset{x}
    ensures SortedDesc(s, key) ==> SortedDesc(r, key)
  {
    if s == [] || key(s[0]) <= key(x) then [x] + s
    else
      var rest := Insert(x, s[1..], key);
      assert s == [s[0]] + s[1..];
      assert SortedDesc(s, key) ==> SortedDesc([s[0]] + rest, key) by {
        if SortedDesc(s, key) {
          forall j | 0 <= j < |rest| ensures key(s[0]) >= key(rest[j]) {
            assert rest[j] in multiset(rest);
            if rest[j] != x {
              assert rest[j] in multiset(s[1..]);
              var i :| 0 <= i < |s[1..]| && s[1..][i] == rest[j];
              assert s[i + 1] == rest[j];
            }
          }
        }
      }
      [s[0]] + rest
  }

  /** Insertion sort into descending key order. */
  function SortDesc<T>(s: seq<T>, key: T -> real): (r: seq<T>)
    ensures SortedDesc(r, key)
    ensures multiset(r) == multiset(s)
  {
    if s == [] then []
    else
      assert s == [s[0]] + s[1..];
      Insert(s[0], SortDesc(s[1..], key), key)
  }

  lemma {:induction false} WithKeyElements<T>(s: seq<T>, key: T -> real, k: real, y: T)
    requires y in WithKey(s, key, k)
    ensures y in s && key(y) == k
  {
    if s != [] && !(key(s[0]) == k && y == s[0]) {
      WithKeyElements(s[1..], key, k, y);
    }
  }

  lemma {:induction false} InsertWithKey<T>(x: T, s: seq<T>, key: T -> real, k: real)
    ensures WithKey(Insert(x, s, key), key, k) == WithKey([x] + s, key, k)
  {
    if s == [] || key(s[0]) <= key(x) {
    } else {
      var rest := Insert(x, s[1..], key);
      InsertWithKey(x, s[1..], key, k);
      assert ([s[0]] + rest)[1..] == rest;
      assert ([x] + s)[1..] == s;
      assert ([x] + s[1..])[1..] == s[1..];
    }
  }

  /** The sort is stable: for every key, the elements with that key keep their input order. */
  lemma {:induction false} SortDescStable<T>(s: seq<T>, key: T -> real, k: real)
    ensures WithKey(SortDesc(s, key), key, k) == WithKey(s, key, k)
  {
    if s != [] {
      var tail := SortDesc(s[1..], key);
      SortDescStable(s[1..], key, k);
      InsertWithKey(s[0], tail, key, k);
      assert ([s[0]] + tail)[1..] == tail;
    }
  }

  /** `SortDesc` produces a stable descending order of its input. */
  lemma SortDescIsStableDescending<T>(s: seq<T>, key: T -> real)
    ensures StableDescendingOrderOf(SortDesc(s, key), s, key)
  {
    forall k ensures WithKey(SortDesc(s, key), key, k) == WithKey(s, key, k) {
      SortDescStable(s, key, k);
    }
  }

  lemma FirstHasItsKey<T>(s: seq<T>, key: T -> real)
    requires s != []
    ensures WithKey(s, key, key(s[0])) != []
  {
  }

  /**
   * There is only one stable descending order of a sequence, so `SortDesc`
   * agrees with every stable sort in reverse order, Python's `sorted` included.
   */
  lemma {:induction false} StableDescendingOrderUnique<T>(a: seq<T>, b: seq<T>, key: T -> real)
    requires SortedDesc(a, key) && SortedDesc(b, key)
    requires forall k :: WithKey(a, key, k) == WithKey(b, key, k)
    ensures a == b
  {
    if a == [] || b == [] {
      // a non-empty side has its first element under its own key, the empty side has none
      if a != [] {
        FirstHasItsKey(a, key);
      } else if b != [] {
        FirstHasItsKey(b, key);
      }
    } else {
      var ka, kb := key(a[0]), key(b[0]);
      assert b[0] in WithKey(b, key, kb);
      WithKeyElements(a, key, kb, b[0]);
      assert a[0] in WithKey(a, key, ka);
      WithKeyElements(b, key, ka, a[0]);
      assert ka == kb;
      assert a[0] == WithKey(a, key, ka)[0] == WithKey(b, key, ka)[0] == b[0];
      forall k ensures WithKey(a[1..], key, k) == WithKey(b[1..], key, k) {
        var wa, wb := WithKey(a, key, k), WithKey(b, key, k);
        assert wa == wb;
        assert wa == (if key(a[0]) == k then [a[0]] else []) + WithKey(a[1..], key, k);
        assert wb == (if key(b[0]) == k then [b[0]] else []) + WithKey(b[1..], key, k);
        if key(a[0]) == k {
          assert key(b[0]) == k;
          assert WithKey(a[1..], key, k) == wa[1..];
          assert WithKey(b[1..], key, k) == wb[1..];
        } else {
          assert key(b[0]) != k;
          assert WithKey(a[1..], key, k) == wa;
          assert WithKey(b[1..], key, k) == wb;
        }
      }
      StableDescendingOrderUnique(a[1..], b[1..], key);
      assert a == [a[0]] + a[1..] && b == [b[0]] + b[1..];
    }
  }

  /** Any stable descending order of `s` is `SortDesc(s)`. */
  lemma SortDescIsTheStableSort<T>(r: seq<T>, s: seq<T>, key: T -> real)
    requires StableDescendingOrderOf(r, s, key)
    ensures r == SortDesc(s, key)
  {
    SortDescIsStableDescending(s, key);
    forall k ensures WithKey(r, key, k) == WithKey(SortDesc(s, key), key, k) {
      assert WithKey(r, key, k) == WithKey(s, key, k);
    }
    StableDescendingOrderUnique(r, SortDesc(s, key), key);
  }

  /** The end index of Python's slice `s[:n]`. */
  function SliceEnd(len: nat, n: int): (e: nat)
    ensures e <= len
    ensures n >= 0 ==> e == if n <= len then n else len
    ensures n < 0 ==> e == if len + n >= 0 then len + n else 0
  {
    if n >= 0 then (if n <= len then n else len)
    else if len + n >= 0 then len + n else 0
  }

  /** Python's `s[:n]`: the first `n` elements, or all but the last `-n` when `n` is negative. */
  function PrefixSlice<T>(s: seq<T>, n: int): (r: seq<T>)
    ensures |r| == SliceEnd(|s|, n) && r == s[..|r|]
  {
    s[..SliceEnd(|s|, n)]
  }

  /**
   * A prefix of a sorted sequence holds its largest keys: no element left
   * out has a larger key than an element kept.
   */
  lemma TopOfSortedIsLargest<T>(s: seq<T>, key: T -> real, n: int)
    ensures var r := SortDesc(s, key);
            var top := PrefixSlice(r, n);
            multiset(top) <= multiset(s) &&
            forall x, y :: x in top && y in multiset(s) - multiset(top) ==> key(x) >= key(y)
  {
    var r := SortDesc(s, key);
    var top := PrefixSlice(r, n);
    var rest := r[|top|..];
    assert r == top + rest;
    assert multiset(s) == multiset(top) + multiset(rest);
    forall x, y | x in top && y in multiset(s) - multiset(top) ensures key(x) >= key(y) {
      assert y in multiset(rest);
      var i :| 0 <= i < |top| && top[i] == x;
      var j :| 0 <= j < |rest| && rest[j] == y;
      assert r[i] == x && r[|top| + j] == y;
    }
  }

  lemma {:induction false} WithKeyOfPrefix<T>(s: seq<T>, m: nat, key: T -> real, k: real)
    requires m <= |s|
    ensures WithKey(s[..m], key, k) <= WithKey(s, key, k)
  {
    if m > 0 {
      WithKeyOfPrefix(s[1..], m - 1, key, k);
      assert s[..m][1..] == s[1..][..m - 1];
    }
  }

  /**
   * The top of the ranking keeps ties in input order: for every key, the
   * kept elements with that key are the first ones with that key in `s`.
   */
  lemma TopKeepsTieOrder<T>(s: seq<T>, key: T -> real, n: int, k: real)
    ensures WithKey(PrefixSlice(SortDesc(s, key), n), key, k) <= WithKey(s, key, k)
  {
    var r := SortDesc(s, key);
    WithKeyOfPrefix(r, SliceEnd(|r|, n), key, k);
    SortDescStable(s, key, k);
  }
}
