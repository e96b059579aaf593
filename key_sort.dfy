/**
 Python's `sorted(items, key=f)`: a stable sort in ascending order of a real
 key, written as an insertion sort. Stability is stated through the tie
 groups: for every key value d, the items whose key is d appear in the result
 in the same order as in the input.
 */
module KeySort {

  predicate Sorted<T>(s: seq<T>, key: T -> real)
  {
    forall i, j :: 0 <= i < j < |s| ==> key(s[i]) <= key(s[j])
  }

  /** The items of s whose key is d, in their order in s. */
  function Ties<T>(s: seq<T>, key: T -> real, d: real): seq<T>
  {
    if s == [] then []
    else (if key(s[0]) == d then [s[0]] else []) + Ties(s[1..], key, d)
  }

  lemma {:induction false} TiesNonEmpty<T>(s: seq<T>, key: T -> real, d: real)
    ensures Ties(s, key, d) != [] <==> exists i :: 0 <= i < |s| && key(s[i]) == d
  {
    if s != [] {
      TiesNonEmpty(s[1..], key, d);
      if exists i :: 0 <= i < |s| && key(s[i]) == d {
        var i :| 0 <= i < |s| && key(s[i]) == d;
        if i > 0 {
          assert s[1..][i - 1] == s[i];
        }
      }
      if exists i :: 0 <= i < |s[1..]| && key(s[1..][i]) == d {
        var i :| 0 <= i < |s[1..]| && key(s[1..][i]) == d;
        assert s[i + 1] == s[1..][i];
      }
    }
  }

  /** Taking a prefix keeps a prefix of every tie group. */
  lemma {:induction false} TiesOfPrefix<T>(s: seq<T>, n: nat, key: T -> real, d: real)
    requires n <= |s|
    ensures Ties(s[..n], key, d) <= Ties(s, key, d)
  {
    if n > 0 {
      TiesOfPrefix(s[1..], n - 1, key, d);
      assert s[..n][1..] == s[1..][..n - 1];
    }
  }

  /** Places p before the first item whose key is not smaller than p's, so p
      goes ahead of every item with the same key. */
  function Insert<T>(p: T, s: seq<T>, key: T -> real): (r: seq<T>)
    ensures multiset(r) == multiset(s) + multiset{p}
  {
    if s == [] || key(p) <= key(s[0]) then [p] + s
    else
      assert s == [s[0]] + s[1..];
      [s[0]] + Insert(p, s[1..], key)
  }

  lemma {:induction false} InsertSorted<T>(p: T, s: seq<T>, key: T -> real)
    requires Sorted(s, key)
    ensures Sorted(Insert(p, s, key), key)
  {
    if s != [] && key(s[0]) < key(p) {
      var rest := Insert(p, s[1..], key);
      InsertSorted(p, s[1..], key);
      forall i | 0 <= i < |rest| ensures key(s[0]) <= key(rest[i]) {
        assert rest[i] in multiset(rest);
        if rest[i] != p {
          assert rest[i] in multiset(s[1..]);
          var j :| 0 <= j < |s[1..]| && s[1..][j] == rest[i];
          assert s[j + 1] == rest[i];
        }
      }
      var r := [s[0]] + rest;
      forall i, j | 0 <= i < j < |r| ensures key(r[i]) <= key(r[j]) {
        if i > 0 {
          assert r[i] == rest[i - 1] && r[j] == rest[j - 1];
        } else {
          assert r[j] == rest[j - 1];
        }
      }
    }
  }

  lemma {:induction false} InsertTies<T>(p: T, s: seq<T>, key: T -> real, d: real)
    ensures Ties(Insert(p, s, key), key, d)
         == if key(p) == d then [p] + Ties(s, key, d) else Ties(s, key, d)
  {
    if s == [] || key(p) <= key(s[0]) {
      assert ([p] + s)[1..] == s;
    } else {
      var rest := Insert(p, s[1..], key);
      InsertTies(p, s[1..], key, d);
      assert ([s[0]] + rest)[1..] == rest;
    }
  }

  /** The stable sort. */
  function SortBy<T>(c: seq<T>, key: T -> real): (r: seq<T>)
    ensures Sorted(r, key)
    ensures multiset(r) == multiset(c) && |r| == |c|
    ensures forall d :: Ties(r, key, d) == Ties(c, key, d)
  {
    if c == [] then []
    else
      var rest := SortBy(c[1..], key);
      assert c == [c[0]] + c[1..];
      InsertSorted(c[0], rest, key);
      InsertTiesAll(c[0], rest, c, key);
      Insert(c[0], rest, key)
  }

  lemma InsertTiesAll<T>(p: T, rest: seq<T>, c: seq<T>, key: T -> real)
    requires c != [] && p == c[0]
    requires forall d :: Ties(rest, key, d) == Ties(c[1..], key, d)
    ensures forall d :: Ties(Insert(p, rest, key), key, d) == Ties(c, key, d)
  {
    forall d ensures Ties(Insert(p, rest, key), key, d) == Ties(c, key, d) {
      InsertTies(p, rest, key, d);
    }
  }

  /** A sorted sequence starts with a smallest key. */
  lemma SortedHeadIsSmallest<T>(s: seq<T>, key: T -> real, d: real)
    requires Sorted(s, key) && Ties(s, key, d) != []
    ensures s != [] && key(s[0]) <= d
  {
    TiesNonEmpty(s, key, d);
  }

  lemma TiesOfTail<T>(s: seq<T>, key: T -> real, d: real)
    requires s != []
    ensures Ties(s[1..], key, d) == if key(s[0]) == d then Ties(s, key, d)[1..] else Ties(s, key, d)
  {
  }

  /** Two non-empty sorted sequences with the same tie groups share their
      head, and their tails again have the same tie groups. */
  lemma SameTiesSameHead<T>(s1: seq<T>, s2: seq<T>, key: T -> real)
    requires s1 != [] && Sorted(s1, key) && Sorted(s2, key)
    requires forall d :: Ties(s1, key, d) == Ties(s2, key, d)
    ensures s2 != [] && s1[0] == s2[0]
    ensures forall d :: Ties(s1[1..], key, d) == Ties(s2[1..], key, d)
  {
    var m := key(s1[0]);
    assert Ties(s1, key, m) != [];
    SortedHeadIsSmallest(s2, key, m);
    assert Ties(s2, key, key(s2[0])) != [];
    SortedHeadIsSmallest(s1, key, key(s2[0]));
    assert Ties(s1, key, m)[0] == s1[0];
    assert Ties(s2, key, m)[0] == s2[0];
    forall d ensures Ties(s1[1..], key, d) == Ties(s2[1..], key, d) {
      TiesOfTail(s1, key, d);
      TiesOfTail(s2, key, d);
    }
  }

  /** Sortedness and stability determine the result: two sequences sorted by
      key whose tie groups all agree are equal. */
  lemma {:induction false} SortedWithSameTiesAreEqual<T>(s1: seq<T>, s2: seq<T>, key: T -> real)
    requires Sorted(s1, key) && Sorted(s2, key)
    requires forall d :: Ties(s1, key, d) == Ties(s2, key, d)
    ensures s1 == s2
  {
    if s1 != [] {
      SameTiesSameHead(s1, s2, key);
      SortedWithSameTiesAreEqual(s1[1..], s2[1..], key);
      assert s1 == [s1[0]] + s1[1..];
      assert s2 == [s2[0]] + s2[1..];
    } else if s2 != [] {
      assert Ties(s2, key, key(s2[0])) != [];
    }
  }

  /** Any sorted rearrangement that keeps every tie group in input order is
      the result of SortBy. */
  lemma SortByIsUnique<T>(c: seq<T>, r: seq<T>, key: T -> real)
    requires Sorted(r, key)
    requires forall d :: Ties(r, key, d) == Ties(c, key, d)
    ensures r == SortBy(c, key)
  {
    SortedWithSameTiesAreEqual(r, SortBy(c, key), key);
  }

  /** `sorted(c, key=key)[:k]`: the k items of c with the smallest keys, ties
      in input order; all of c when it has fewer than k items. */
  function SmallestK<T>(c: seq<T>, key: T -> real, k: nat): (r: seq<T>)
    ensures |r| == if k < |c| then k else |c|
    ensures Sorted(r, key)
    ensures multiset(r) <= multiset(c)
    ensures forall p, i | p in multiset(c) - multiset(r) && 0 <= i < |r| :: key(r[i]) <= key(p)
    ensures forall d :: Ties(r, key, d) <= Ties(c, key, d)
  {
    var n := if k < |c| then k else |c|;
    PrefixOfSorted(c, SortBy(c, key), n, key);
    SortBy(c, key)[..n]
  }

  lemma PrefixOfSorted<T>(c: seq<T>, sorted: seq<T>, n: nat, key: T -> real)
    requires n <= |sorted| && Sorted(sorted, key) && multiset(sorted) == multiset(c)
    requires forall d :: Ties(sorted, key, d) == Ties(c, key, d)
    ensures Sorted(sorted[..n], key)
    ensures multiset(sorted[..n]) <= multiset(c)
    ensures forall p, i | p in multiset(c) - multiset(sorted[..n]) && 0 <= i < n :: key(sorted[i]) <= key(p)
    ensures forall d :: Ties(sorted[..n], key, d) <= Ties(c, key, d)
  {
    SortedPrefix(sorted, n, key);
    PrefixLeavesFarther(sorted, n, key);
    forall d ensures Ties(sorted[..n], key, d) <= Ties(c, key, d) {
      TiesOfPrefix(sorted, n, key, d);
    }
  }

  lemma SortedPrefix<T>(s: seq<T>, n: nat, key: T -> real)
    requires n <= |s| && Sorted(s, key)
    ensures Sorted(s[..n], key)
  {
    forall i, j | 0 <= i < j < n ensures key(s[..n][i]) <= key(s[..n][j]) {
      assert s[..n][i] == s[i] && s[..n][j] == s[j];
    }
  }

  /** Whatever a sorted sequence's first n items leave behind is not smaller
      than any of them. */
  lemma PrefixLeavesFarther<T>(s: seq<T>, n: nat, key: T -> real)
    requires n <= |s| && Sorted(s, key)
    ensures multiset(s) == multiset(s[..n]) + multiset(s[n..])
    ensures multiset(s) - multiset(s[..n]) == multiset(s[n..])
    ensures forall p, i | p in multiset(s[n..]) && 0 <= i < n :: key(s[i]) <= key(p)
  {
    assert s == s[..n] + s[n..];
    forall p, i | p in multiset(s[n..]) && 0 <= i < n
      ensures key(s[i]) <= key(p)
    {
      var j :| 0 <= j < |s[n..]| && s[n..][j] == p;
      assert s[n + j] == p;
    }
  }

  predicate StrictlySorted<T>(s: seq<T>, key: T -> real)
  {
    forall i, j :: 0 <= i < j < |s| ==> key(s[i]) < key(s[j])
  }

  /** When every item has key d, the items with key d are the whole sequence. */
  lemma {:induction false} TiesOfConstantKey<T>(s: seq<T>, key: T -> real, d: real)
    requires forall i | 0 <= i < |s| :: key(s[i]) == d
    ensures Ties(s, key, d) == s
  {
    if s != [] {
      assert forall i | 0 <= i < |s[1..]| :: key(s[1..][i]) == d by {
        forall i | 0 <= i < |s[1..]| ensures key(s[1..][i]) == d {
          assert s[1..][i] == s[i + 1];
        }
      }
      TiesOfConstantKey(s[1..], key, d);
      assert s == [s[0]] + s[1..];
    }
  }

  /** Sorting items that all share one key leaves them in their input order. */
  lemma SortByKeepsEqualKeysInOrder<T>(c: seq<T>, key: T -> real, d: real)
    requires forall i | 0 <= i < |c| :: key(c[i]) == d
    ensures SortBy(c, key) == c
  {
    var r := SortBy(c, key);
    forall i | 0 <= i < |r| ensures key(r[i]) == d {
      assert r[i] in multiset(c);
    }
    TiesOfConstantKey(c, key, d);
    TiesOfConstantKey(r, key, d);
  }

  /** Keys that rise strictly from each item to the next rise strictly along
      the whole sequence. */
  lemma {:induction false} StrictlySortedByNeighbours<T>(s: seq<T>, key: T -> real)
    requires forall i | 0 <= i < |s| - 1 :: key(s[i]) < key(s[i + 1])
    ensures StrictlySorted(s, key)
  {
    if |s| > 1 {
      var t := s[1..];
      forall i | 0 <= i < |t| - 1 ensures key(t[i]) < key(t[i + 1]) {
        assert t[i] == s[i + 1] && t[i + 1] == s[i + 2];
      }
      StrictlySortedByNeighbours(t, key);
      forall i, j | 0 <= i < j < |s| ensures key(s[i]) < key(s[j]) {
        if i > 0 {
          assert s[i] == t[i - 1] && s[j] == t[j - 1];
        } else if j > 1 {
          assert s[1] == t[0] && s[j] == t[j - 1];
        }
      }
    }
  }

  /** A sorted sequence with the same items as a strictly sorted one is that
      sequence: when no two keys tie, sorting leaves nothing to choose. */
  lemma {:induction false} SortedSameItemsAsStrict<T>(s: seq<T>, r: seq<T>, key: T -> real)
    requires Sorted(s, key) && StrictlySorted(r, key) && multiset(s) == multiset(r)
    ensures s == r
  {
    if r == [] {
      assert |s| == |multiset(s)| == 0;
    } else {
      HeadsAgree(s, r, key);
      SortedTail(s, key);
      StrictlySortedTail(r, key);
      MultisetOfTail(s);
      MultisetOfTail(r);
      SortedSameItemsAsStrict(s[1..], r[1..], key);
      SameHeadSameTail(s, r);
    }
  }

  /** Under the same conditions the two sequences start with the same item. */
  lemma HeadsAgree<T>(s: seq<T>, r: seq<T>, key: T -> real)
    requires Sorted(s, key) && StrictlySorted(r, key) && multiset(s) == multiset(r) && r != []
    ensures s != [] && s[0] == r[0]
  {
    assert r[0] in multiset(s);
    var j :| 0 <= j < |s| && s[j] == r[0];
    assert s[0] in multiset(r);
    var i :| 0 <= i < |r| && r[i] == s[0];
    assert key(s[0]) <= key(s[j]);
    StrictHeadIsUnique(r, i, key);
  }

  lemma SameHeadSameTail<T>(s: seq<T>, r: seq<T>)
    requires s != [] && r != [] && s[0] == r[0] && s[1..] == r[1..]
    ensures s == r
  {
    assert s == [s[0]] + s[1..];
    assert r == [r[0]] + r[1..];
  }

  lemma StrictHeadIsUnique<T>(r: seq<T>, i: int, key: T -> real)
    requires StrictlySorted(r, key) && 0 <= i < |r| && key(r[i]) <= key(r[0])
    ensures i == 0
  {
  }

  lemma SortedTail<T>(s: seq<T>, key: T -> real)
    requires s != [] && Sorted(s, key)
    ensures Sorted(s[1..], key)
  {
    forall i, j | 0 <= i < j < |s[1..]| ensures key(s[1..][i]) <= key(s[1..][j]) {
      assert s[1..][i] == s[i + 1] && s[1..][j] == s[j + 1];
    }
  }

  lemma StrictlySortedTail<T>(s: seq<T>, key: T -> real)
    requires s != [] && StrictlySorted(s, key)
    ensures StrictlySorted(s[1..], key)
  {
    forall i, j | 0 <= i < j < |s[1..]| ensures key(s[1..][i]) < key(s[1..][j]) {
      assert s[1..][i] == s[i + 1] && s[1..][j] == s[j + 1];
    }
  }

  lemma MultisetOfTail<T>(s: seq<T>)
    requires s != []
    ensures multiset(s[1..]) == multiset(s) - multiset{s[0]}
  {
    assert s == [s[0]] + s[1..];
  }

  /** A strictly sorted rearrangement of c is what SortBy returns. */
  lemma SortByOfDistinctKeys<T>(c: seq<T>, r: seq<T>, key: T -> real)
    requires StrictlySorted(r, key) && multiset(r) == multiset(c)
    ensures SortBy(c, key) == r
  {
    SortedSameItemsAsStrict(SortBy(c, key), r, key);
  }
}
