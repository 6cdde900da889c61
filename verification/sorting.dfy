/** Python's `list.sort(key=...)`: a stable sort by an integer key, written as
    an insertion sort over sequences. */
module Sorting {

  /** Keys never decrease along `s`. */
  ghost predicate SortedBy<T>(s: seq<T>, key: T -> int) {
    forall i, j :: 0 <= i < j < |s| ==> key(s[i]) <= key(s[j])
  }

  /** The elements of `s` whose key is `k`, in their order in `s`. */
  function WithKey<T>(s: seq<T>, key: T -> int, k: int): seq<T>
    decreases |s|
  {
    if |s| == 0 then []
    else (if key(s[0]) == k then [s[0]] else []) + WithKey(s[1..], key, k)
  }

  /** Inserts `x` after every leading element whose key is not larger than its own. */
  function Insert<T>(x: T, s: seq<T>, key: T -> int): seq<T>
    decreases |s|
  {
    if |s| == 0 || key(x) < key(s[0]) then [x] + s
    else [s[0]] + Insert(x, s[1..], key)
  }

  /** The stable sort of `s` by `key`. */
  function SortBy<T>(s: seq<T>, key: T -> int): (r: seq<T>)
    ensures SortedBy(r, key)
    ensures multiset(r) == multiset(s)
    decreases |s|
  {
    if |s| == 0 then []
    else
      var init, last := s[..|s| - 1], s[|s| - 1];
      var sorted := SortBy(init, key);
      InsertSorted(last, sorted, key);
      InsertMultiset(last, sorted, key);
      assert s == init + [last];
      assert multiset(s) == multiset(init) + multiset{last};
      Insert(last, sorted, key)
  }

  lemma {:induction false} InsertMultiset<T>(x: T, s: seq<T>, key: T -> int)
    ensures multiset(Insert(x, s, key)) == multiset(s) + multiset{x}
    decreases |s|
  {
    if |s| > 0 && key(x) >= key(s[0]) {
      InsertMultiset(x, s[1..], key);
      assert s == [s[0]] + s[1..];
    }
  }

  /** Insertion keeps the keys in order. */
  lemma {:induction false} InsertSorted<T>(x: T, s: seq<T>, key: T -> int)
    requires SortedBy(s, key)
    ensures SortedBy(Insert(x, s, key), key)
    decreases |s|
  {
    if |s| > 0 && key(x) >= key(s[0]) {
      SortedTail(s, key);
      InsertSorted(x, s[1..], key);
      InsertMultiset(x, s[1..], key);
      var rest := Insert(x, s[1..], key);
      assert s == [s[0]] + s[1..];
      forall j | 0 <= j < |rest| ensures key(s[0]) <= key(rest[j]) {
        var y := rest[j];
        assert y in multiset(rest);
        if y != x {
          assert y in multiset(s[1..]);
          var m :| 0 <= m < |s[1..]| && s[1..][m] == y;
          assert s[1 + m] == y;
        }
      }
      assert Insert(x, s, key) == [s[0]] + rest;
    }
  }

  lemma WithKeyAppend<T>(a: seq<T>, b: seq<T>, key: T -> int, k: int)
    ensures WithKey(a + b, key, k) == WithKey(a, key, k) + WithKey(b, key, k)
    decreases |a|
  {
    if |a| > 0 {
      assert (a + b)[1..] == a[1..] + b;
      WithKeyAppend(a[1..], b, key, k);
    } else {
      assert a + b == b;
    }
  }

  lemma WithKeyAbsent<T>(s: seq<T>, key: T -> int, k: int)
    requires forall i :: 0 <= i < |s| ==> key(s[i]) != k
    ensures WithKey(s, key, k) == []
    decreases |s|
  {
    if |s| > 0 {
      WithKeyAbsent(s[1..], key, k);
    }
  }

  lemma SortedTail<T>(s: seq<T>, key: T -> int)
    requires |s| > 0 && SortedBy(s, key)
    ensures SortedBy(s[1..], key)
  {
    forall i, j | 0 <= i < j < |s| - 1 ensures key(s[1..][i]) <= key(s[1..][j]) {
      assert s[1..][i] == s[i + 1] && s[1..][j] == s[j + 1];
    }
  }

  lemma WithKeyFront<T>(x: T, s: seq<T>, key: T -> int, k: int)
    requires forall i :: 0 <= i < |s| ==> key(x) < key(s[i])
    ensures WithKey([x] + s, key, k) == WithKey(s, key, k) + WithKey([x], key, k)
  {
    WithKeyAppend([x], s, key, k);
    if key(x) == k {
      WithKeyAbsent(s, key, k);
    }
  }

  /** Inserting `x` puts it last among the elements that share its key. */
  lemma {:induction false} InsertWithKey<T>(x: T, s: seq<T>, key: T -> int, k: int)
    requires SortedBy(s, key)
    ensures WithKey(Insert(x, s, key), key, k) == WithKey(s, key, k) + WithKey([x], key, k)
    decreases |s|
  {
    if |s| == 0 {
      assert Insert(x, s, key) == [x];
    } else if key(x) < key(s[0]) {
      assert Insert(x, s, key) == [x] + s;
      WithKeyFront(x, s, key, k);
    } else {
      SortedTail(s, key);
      var rest := Insert(x, s[1..], key);
      assert Insert(x, s, key) == [s[0]] + rest;
      InsertWithKey(x, s[1..], key, k);
      WithKeyAppend([s[0]], rest, key, k);
      WithKeyAppend([s[0]], s[1..], key, k);
      assert s == [s[0]] + s[1..];
    }
  }

  /** The sort is stable: the elements sharing any one key keep their order. */
  lemma {:induction false} SortByStable<T>(s: seq<T>, key: T -> int, k: int)
    ensures WithKey(SortBy(s, key), key, k) == WithKey(s, key, k)
    decreases |s|
  {
    if |s| > 0 {
      var init, last := s[..|s| - 1], s[|s| - 1];
      SortByStable(init, key, k);
      InsertWithKey(last, SortBy(init, key), key, k);
      assert s == init + [last];
      WithKeyAppend(init, [last], key, k);
      assert SortBy(s, key) == Insert(last, SortBy(init, key), key);
    }
  }

  /** Sorting input whose keys already never decrease changes nothing. */
  lemma {:induction false} SortBySorted<T>(s: seq<T>, key: T -> int)
    requires SortedBy(s, key)
    ensures SortBy(s, key) == s
    decreases |s|
  {
    if |s| > 0 {
      var init, last := s[..|s| - 1], s[|s| - 1];
      SortedInit(s, key);
      SortBySorted(init, key);
      InsertLast(last, init, key);
      assert s == init + [last];
    }
  }

  /** Dropping the last element keeps the keys in order, and no remaining key
      exceeds the dropped one. */
  lemma SortedInit<T>(s: seq<T>, key: T -> int)
    requires |s| > 0 && SortedBy(s, key)
    ensures SortedBy(s[..|s| - 1], key)
    ensures var init := s[..|s| - 1]; forall i :: 0 <= i < |init| ==> key(init[i]) <= key(s[|s| - 1])
  {
    var init := s[..|s| - 1];
    forall i, j | 0 <= i < j < |init| ensures key(init[i]) <= key(init[j]) {
      assert init[i] == s[i] && init[j] == s[j];
    }
    forall i | 0 <= i < |init| ensures key(init[i]) <= key(s[|s| - 1]) {
      assert init[i] == s[i];
    }
  }

  lemma {:induction false} InsertLast<T>(x: T, s: seq<T>, key: T -> int)
    requires SortedBy(s, key)
    requires forall i :: 0 <= i < |s| ==> key(s[i]) <= key(x)
    ensures Insert(x, s, key) == s + [x]
    decreases |s|
  {
    if |s| > 0 {
      InsertLast(x, s[1..], key);
      assert s == [s[0]] + s[1..];
    }
  }
}
