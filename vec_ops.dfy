/**
 * The two library operations on `Vec` that the to-do list relies on:
 * `sort_by` with a key comparison, which is a stable sort, and `dedup`,
 * which drops consecutive repeats.
 *
 * `SortBy` is written as an insertion sort. `StableSortUnique` shows that a
 * sorted sequence that keeps, for every key, the items with that key in
 * their original order is exactly `SortBy`, so any stable sort (Rust's
 * merge sort included) produces the same sequence.
 */
module VecOps {
  import opened StringOrder

  /** The sort key of `Vec<String>::sort`: the string itself. */
  function Id(s: string): string
  {
    s
  }

  /** Non-decreasing by `key`. */
  ghost predicate SortedBy<T>(s: seq<T>, key: T -> string)
  {
    forall i, j :: 0 <= i < j < |s| ==> Le(key(s[i]), key(s[j]))
  }

  /** The items of `s` whose key is `k`, in the order they have in `s`. */
  function KeyFilter<T>(s: seq<T>, key: T -> string, k: string): seq<T>
  {
    if s == [] then []
    else (if key(s[0]) == k then [s[0]] else []) + KeyFilter(s[1..], key, k)
  }

  /** `KeyFilter` keeps exactly the items of `s` with key `k`. */
  lemma {:induction false} KeyFilterMembers<T>(s: seq<T>, key: T -> string, k: string, y: T)
    ensures y in KeyFilter(s, key, k) <==> y in s && key(y) == k
  {
    if s != [] {
      KeyFilterMembers(s[1..], key, k, y);
      assert y in s <==> y == s[0] || y in s[1..];
    }
  }

  /** Inserts `x` in front of the first item whose key is not below `x`'s. */
  function Insert<T>(x: T, s: seq<T>, key: T -> string): (r: seq<T>)
    ensures multiset(r) == multiset(s) + multiset{x}
  {
    if s == [] || Le(key(x), key(s[0])) then [x] + s
    else
      assert s == [s[0]] + s[1..];
      [s[0]] + Insert(x, s[1..], key)
  }

  /** `slice::sort_by(|a, b| key(a).cmp(&key(b)))`: the result is a permutation of `s`. */
  function SortBy<T>(s: seq<T>, key: T -> string): (r: seq<T>)
    ensures multiset(r) == multiset(s)
  {
    if s == [] then []
    else
      assert s == [s[0]] + s[1..];
      Insert(s[0], SortBy(s[1..], key), key)
  }

  lemma {:induction false} InsertSorted<T>(x: T, s: seq<T>, key: T -> string)
    requires SortedBy(s, key)
    ensures SortedBy(Insert(x, s, key), key)
  {
    var r := Insert(x, s, key);
    if s == [] {
    } else if Le(key(x), key(s[0])) {
      forall j | 1 <= j < |r|
        ensures Le(key(r[0]), key(r[j]))
      {
        if j > 1 {
          LeTransitive(key(x), key(s[0]), key(s[j - 1]));
        }
      }
    } else {
      var t := Insert(x, s[1..], key);
      InsertSorted(x, s[1..], key);
      LeTotal(key(x), key(s[0]));
      forall j | 0 <= j < |t|
        ensures Le(key(s[0]), key(t[j]))
      {
        assert t[j] in multiset(t);
        if t[j] != x {
          assert t[j] in multiset(s[1..]);
          var m :| 0 <= m < |s[1..]| && s[1..][m] == t[j];
          assert s[m + 1] == t[j];
        }
      }
      assert r == [s[0]] + t;
    }
  }

  /** `SortBy` orders by key. */
  lemma {:induction false} SortByIsSorted<T>(s: seq<T>, key: T -> string)
    ensures SortedBy(SortBy(s, key), key)
  {
    if s != [] {
      SortByIsSorted(s[1..], key);
      InsertSorted(s[0], SortBy(s[1..], key), key);
    }
  }

  lemma {:induction false} InsertKeyFilter<T>(x: T, s: seq<T>, key: T -> string, k: string)
    ensures KeyFilter(Insert(x, s, key), key, k)
         == (if key(x) == k then [x] else []) + KeyFilter(s, key, k)
  {
    var r := Insert(x, s, key);
    var xk: seq<T> := if key(x) == k then [x] else [];
    if s == [] || Le(key(x), key(s[0])) {
      assert r[0] == x && r[1..] == s;
      assert KeyFilter(r, key, k) == xk + KeyFilter(s, key, k);
    } else {
      var t := Insert(x, s[1..], key);
      var sk: seq<T> := if key(s[0]) == k then [s[0]] else [];
      InsertKeyFilter(x, s[1..], key, k);
      LeReflexive(key(x));
      assert r[0] == s[0] && r[1..] == t;
      assert KeyFilter(r, key, k) == sk + (xk + KeyFilter(s[1..], key, k));
      assert KeyFilter(s, key, k) == sk + KeyFilter(s[1..], key, k);
      if key(x) == k {
        assert sk == [];
      } else {
        assert xk == [];
      }
    }
  }

  /** `SortBy` is stable: the items sharing any one key keep their relative order. */
  lemma {:induction false} SortByIsStable<T>(s: seq<T>, key: T -> string, k: string)
    ensures KeyFilter(SortBy(s, key), key, k) == KeyFilter(s, key, k)
  {
    if s != [] {
      SortByIsStable(s[1..], key, k);
      InsertKeyFilter(s[0], SortBy(s[1..], key), key, k);
    }
  }

  /** Two sorted sequences that agree on every key's items are equal. */
  lemma {:induction false} SortedSameRunsEqual<T>(r: seq<T>, t: seq<T>, key: T -> string)
    requires SortedBy(r, key) && SortedBy(t, key)
    requires forall k :: KeyFilter(r, key, k) == KeyFilter(t, key, k)
    ensures r == t
    decreases |r|
  {
    if r != [] {
      assert KeyFilter(r, key, key(r[0])) == [r[0]] + KeyFilter(r[1..], key, key(r[0]));
      KeyFilterMembers(t, key, key(r[0]), r[0]);
    }
    if t != [] {
      assert KeyFilter(t, key, key(t[0])) == [t[0]] + KeyFilter(t[1..], key, key(t[0]));
      KeyFilterMembers(r, key, key(t[0]), t[0]);
    }
    if r != [] {
      var k0, k1 := key(r[0]), key(t[0]);
      var m :| 0 <= m < |t| && t[m] == r[0];
      var n :| 0 <= n < |r| && r[n] == t[0];
      LeReflexive(k0);
      LeReflexive(k1);
      assert Le(k1, key(t[m])) && Le(k0, key(r[n]));
      LeAntisymmetric(k0, k1);
      assert KeyFilter(r, key, k0) == [r[0]] + KeyFilter(r[1..], key, k0);
      assert KeyFilter(t, key, k0) == [t[0]] + KeyFilter(t[1..], key, k0);
      assert r[0] == KeyFilter(r, key, k0)[0] == t[0];
      forall k
        ensures KeyFilter(r[1..], key, k) == KeyFilter(t[1..], key, k)
      {
        var rk: seq<T> := if key(r[0]) == k then [r[0]] else [];
        assert KeyFilter(r, key, k) == rk + KeyFilter(r[1..], key, k);
        assert KeyFilter(t, key, k) == rk + KeyFilter(t[1..], key, k);
        assert KeyFilter(r[1..], key, k) == KeyFilter(r, key, k)[|rk|..];
        assert KeyFilter(t[1..], key, k) == KeyFilter(t, key, k)[|rk|..];
      }
      SortedSameRunsEqual(r[1..], t[1..], key);
      assert r == [r[0]] + r[1..] && t == [t[0]] + t[1..];
    }
  }

  /**
   * Any stable sort of `s` by `key` is `SortBy(s, key)`: a sequence sorted by
   * key that keeps each key's items of `s` in their order equals it.
   */
  lemma StableSortUnique<T>(r: seq<T>, s: seq<T>, key: T -> string)
    requires SortedBy(r, key)
    requires forall k :: KeyFilter(r, key, k) == KeyFilter(s, key, k)
    ensures r == SortBy(s, key)
  {
    SortByIsSorted(s, key);
    forall k
      ensures KeyFilter(r, key, k) == KeyFilter(SortBy(s, key), key, k)
    {
      SortByIsStable(s, key, k);
    }
    SortedSameRunsEqual(r, SortBy(s, key), key);
  }

  /** Sorting a sequence that is already sorted by the key leaves it as it is. */
  lemma SortByOfSorted<T>(s: seq<T>, key: T -> string)
    requires SortedBy(s, key)
    ensures SortBy(s, key) == s
  {
    StableSortUnique(s, s, key);
  }

  /** `Vec::dedup`: collapses each run of equal neighbours to one element. */
  function Dedup<T(==)>(s: seq<T>): (r: seq<T>)
    ensures |r| <= |s|
    ensures forall i :: 0 <= i < |r| ==> r[i] in s
    ensures forall i :: 0 <= i < |s| ==> s[i] in r
    ensures s != [] ==> r != [] && r[0] == s[0]
    ensures forall i :: 0 <= i < |r| - 1 ==> r[i] != r[i + 1]
  {
    if |s| <= 1 then s
    else if s[0] == s[1] then Dedup(s[1..])
    else [s[0]] + Dedup(s[1..])
  }

  /** On a sorted sequence, `dedup` leaves a strictly increasing one. */
  lemma {:induction false} DedupOfSorted(s: seq<string>)
    requires SortedBy(s, Id)
    ensures StrictlyIncreasing(Dedup(s))
  {
    if |s| > 1 {
      DedupOfSorted(s[1..]);
      if s[0] != s[1] {
        var t := Dedup(s[1..]);
        forall j | 0 <= j < |t|
          ensures Lt(s[0], t[j])
        {
          assert t[j] in s[1..];
          var m :| 0 <= m < |s[1..]| && s[1..][m] == t[j];
          assert Le(s[0], s[m + 1]);
          if m > 0 && s[0] == t[j] {
            assert Le(s[1], s[m + 1]);
            LeAntisymmetric(s[0], s[1]);
          }
        }
        assert Dedup(s) == [s[0]] + t;
      }
    }
  }
}
