/**
 * A stable sort by an integer key. It stands for JavaScript's `Array.prototype.sort`
 * with a numeric comparator (stable since ES2019) and for the order in which a
 * database index returns rows that tie on the indexed field (insertion order).
 */
module Sorting {
  import opened Seqs

  ghost predicate SortedBy<T>(s: seq<T>, key: T -> int) {
    forall i, j :: 0 <= i < j < |s| ==> key(s[i]) <= key(s[j])
  }

  /** Inserts `x` into `s` after every element whose key is at most `key(x)`. */
  function Insert<T>(x: T, s: seq<T>, key: T -> int): (r: seq<T>)
    ensures |r| == |s| + 1
  {
    if s == [] then [x]
    else if key(x) < key(s[0]) then [x] + s
    else [s[0]] + Insert(x, s[1..], key)
  }

  /** Insertion sort: each element goes after every earlier element with a key that is not larger. */
  function SortBy<T>(s: seq<T>, key: T -> int): (r: seq<T>)
    ensures |r| == |s|
  {
    if s == [] then [] else Insert(s[|s| - 1], SortBy(s[..|s| - 1], key), key)
  }

  lemma {:induction false} InsertKeepsElements<T>(x: T, s: seq<T>, key: T -> int)
    ensures multiset(Insert(x, s, key)) == multiset(s) + multiset{x}
  {
    if s != [] && key(x) >= key(s[0]) {
      InsertKeepsElements(x, s[1..], key);
      assert s == [s[0]] + s[1..];
    }
  }

  lemma {:induction false} InsertKeepsSorted<T>(x: T, s: seq<T>, key: T -> int)
    requires SortedBy(s, key)
    ensures SortedBy(Insert(x, s, key), key)
  {
    if s != [] && key(x) >= key(s[0]) {
      InsertKeepsSorted(x, s[1..], key);
      var r := Insert(x, s[1..], key);
      InsertKeepsElements(x, s[1..], key);
      forall i | 0 <= i < |r| ensures key(s[0]) <= key(r[i]) {
        assert r[i] in multiset(r);
        assert r[i] in multiset(s[1..]) + multiset{x};
        if r[i] != x {
          assert r[i] in s[1..];
          var j :| 0 <= j < |s[1..]| && s[1..][j] == r[i];
          assert s[j + 1] == r[i];
        }
      }
    }
  }

  /** The sorted copy is ordered by the key. */
  lemma {:induction false} SortBySorted<T>(s: seq<T>, key: T -> int)
    ensures SortedBy(SortBy(s, key), key)
  {
    if s != [] {
      SortBySorted(s[..|s| - 1], key);
      InsertKeepsSorted(s[|s| - 1], SortBy(s[..|s| - 1], key), key);
    }
  }

  /** The sorted copy holds exactly the elements of the input. */
  lemma {:induction false} SortByPermutes<T>(s: seq<T>, key: T -> int)
    ensures multiset(SortBy(s, key)) == multiset(s)
  {
    if s != [] {
      var init := s[..|s| - 1];
      SortByPermutes(init, key);
      InsertKeepsElements(s[|s| - 1], SortBy(init, key), key);
      assert s == init + [s[|s| - 1]];
    }
  }

  lemma {:induction false} InsertAfterAll<T>(x: T, s: seq<T>, key: T -> int)
    requires forall i :: 0 <= i < |s| ==> key(s[i]) <= key(x)
    ensures Insert(x, s, key) == s + [x]
  {
    if s != [] {
      InsertAfterAll(x, s[1..], key);
    }
  }

  /** A list that is already ordered by the key comes back unchanged (the sort is stable). */
  lemma {:induction false} SortByOfSorted<T>(s: seq<T>, key: T -> int)
    requires SortedBy(s, key)
    ensures SortBy(s, key) == s
  {
    if s != [] {
      var init := s[..|s| - 1];
      SortByOfSorted(init, key);
      InsertAfterAll(s[|s| - 1], init, key);
    }
  }

  /** The elements whose key is `k`. */
  function KeyIs<T>(key: T -> int, k: int): T -> bool {
    (x: T) => key(x) == k
  }

  /** Inserting into an ordered list puts `x` after every element with the same key. */
  lemma {:induction false} InsertStable<T>(x: T, s: seq<T>, key: T -> int, k: int)
    requires SortedBy(s, key)
    ensures Filter(Insert(x, s, key), KeyIs(key, k)) == Filter(s, KeyIs(key, k)) + Filter([x], KeyIs(key, k))
  {
    if s == [] {
      assert Insert(x, s, key) == [x];
    } else if key(x) < key(s[0]) {
      InsertFront(x, s, key, k);
    } else {
      var tail := s[1..];
      assert SortedBy(tail, key) by {
        forall i, j | 0 <= i < j < |tail| ensures key(tail[i]) <= key(tail[j]) {
          assert tail[i] == s[i + 1] && tail[j] == s[j + 1];
        }
      }
      InsertStable(x, tail, key, k);
      InsertBehind(x, s, key, k);
    }
  }

  lemma InsertFront<T>(x: T, s: seq<T>, key: T -> int, k: int)
    requires SortedBy(s, key) && s != [] && key(x) < key(s[0])
    ensures Filter(Insert(x, s, key), KeyIs(key, k)) == Filter(s, KeyIs(key, k)) + Filter([x], KeyIs(key, k))
  {
    var p := KeyIs(key, k);
    assert Insert(x, s, key) == [x] + s;
    FilterConcat([x], s, p);
    if key(x) == k {
      forall i | 0 <= i < |s| ensures !p(s[i]) {
        assert key(s[0]) <= key(s[i]);
      }
      FilterNone(s, p);
    }
  }

  lemma InsertBehind<T>(x: T, s: seq<T>, key: T -> int, k: int)
    requires s != [] && key(x) >= key(s[0])
    requires Filter(Insert(x, s[1..], key), KeyIs(key, k)) == Filter(s[1..], KeyIs(key, k)) + Filter([x], KeyIs(key, k))
    ensures Filter(Insert(x, s, key), KeyIs(key, k)) == Filter(s, KeyIs(key, k)) + Filter([x], KeyIs(key, k))
  {
    var p := KeyIs(key, k);
    assert Insert(x, s, key) == [s[0]] + Insert(x, s[1..], key);
    FilterConcat([s[0]], Insert(x, s[1..], key), p);
    FilterConcat([s[0]], s[1..], p);
    assert s == [s[0]] + s[1..];
  }

  /**
   * The sort is stable: the elements that share a key come out in their input order
   * (JavaScript's `sort` since ES2019, and index ties in insertion order).
   */
  lemma {:induction false} SortByStable<T>(s: seq<T>, key: T -> int, k: int)
    ensures Filter(SortBy(s, key), KeyIs(key, k)) == Filter(s, KeyIs(key, k))
  {
    if s != [] {
      var init := s[..|s| - 1];
      SortByStable(init, key, k);
      SortBySorted(init, key);
      InsertStable(s[|s| - 1], SortBy(init, key), key, k);
    }
  }

  /**
   * The first `n` of the sorted copy have the smallest keys: an element of the input left
   * out of them has a key at least as large as every key taken.
   */
  lemma SortByPrefixSmallest<T>(s: seq<T>, key: T -> int, n: nat, x: T)
    requires n <= |s|
    requires x in s && x !in SortBy(s, key)[..n]
    ensures forall k :: 0 <= k < n ==> key(SortBy(s, key)[k]) <= key(x)
  {
    var r := SortBy(s, key);
    SortBySorted(s, key);
    SortByPermutes(s, key);
    assert x in multiset(r);
    var i :| 0 <= i < |r| && r[i] == x;
    forall k | 0 <= k < n ensures r[k] != x {
      assert r[..n][k] == r[k];
    }
  }

  /**
   * The first `n` elements by key (`sort` then `slice(0, n)`, or an index read with
   * `take(n)`): at most `n`, ordered, drawn from the input, none left out with a smaller key
   * than one taken, and all of them when there are no more than `n`.
   */
  lemma TakeSmallest<T>(s: seq<T>, key: T -> int, n: nat)
    ensures var r := Take(SortBy(s, key), n);
      && |r| <= n
      && SortedBy(r, key)
      && (forall x :: x in r ==> x in multiset(s))
      && (forall x :: x in s && x !in r ==> forall k :: 0 <= k < |r| ==> key(r[k]) <= key(x))
      && (|s| <= n ==> multiset(r) == multiset(s))
  {
    var sorted := SortBy(s, key);
    var r := Take(sorted, n);
    SortBySorted(s, key);
    SortByPermutes(s, key);
    if |s| <= n {
      assert r == sorted;
    }
    forall x | x in r ensures x in multiset(s) {
      assert x in multiset(sorted);
    }
    if n <= |s| {
      forall x | x in s && x !in r ensures forall k :: 0 <= k < |r| ==> key(r[k]) <= key(x) {
        SortByPrefixSmallest(s, key, n, x);
      }
    } else {
      assert r == sorted;
      forall x | x in s ensures x in r {
        assert x in multiset(sorted);
      }
    }
  }
}
