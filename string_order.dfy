/**
 * The ordering Rust's `Ord` gives `String`: lexicographic comparison.
 * Rust compares the UTF-8 bytes, which orders strings exactly as comparing
 * their characters (Unicode scalar values) one by one does; a proper prefix
 * comes first.
 */
module StringOrder {

  /** `a <= b` in lexicographic order. */
  predicate Le(a: string, b: string)
  {
    a == [] || (b != [] && (a[0] < b[0] || (a[0] == b[0] && Le(a[1..], b[1..]))))
  }

  /** `a < b` in lexicographic order. */
  predicate Lt(a: string, b: string)
  {
    Le(a, b) && a != b
  }

  lemma {:induction false} LeReflexive(a: string)
    ensures Le(a, a)
  {
    if a != [] {
      LeReflexive(a[1..]);
    }
  }

  lemma {:induction false} LeTotal(a: string, b: string)
    ensures Le(a, b) || Le(b, a)
  {
    if a != [] && b != [] && a[0] == b[0] {
      LeTotal(a[1..], b[1..]);
    }
  }

  lemma {:induction false} LeAntisymmetric(a: string, b: string)
    requires Le(a, b) && Le(b, a)
    ensures a == b
  {
    if a != [] && b != [] {
      LeAntisymmetric(a[1..], b[1..]);
      assert a == [a[0]] + a[1..] && b == [b[0]] + b[1..];
    }
  }

  lemma {:induction false} LeTransitive(a: string, b: string, c: string)
    requires Le(a, b) && Le(b, c)
    ensures Le(a, c)
  {
    if a != [] && b != [] && c != [] && a[0] == b[0] == c[0] {
      LeTransitive(a[1..], b[1..], c[1..]);
    }
  }

  /** Strictly increasing: sorted and free of duplicates. */
  ghost predicate StrictlyIncreasing(s: seq<string>)
  {
    forall i, j :: 0 <= i < j < |s| ==> Lt(s[i], s[j])
  }

  /** A strictly increasing sequence is determined by its set of elements. */
  lemma {:induction false} StrictlyIncreasingUnique(a: seq<string>, b: seq<string>)
    requires StrictlyIncreasing(a) && StrictlyIncreasing(b)
    requires forall x :: x in a <==> x in b
    ensures a == b
    decreases |a|
  {
    assert a != [] ==> a[0] in b;
    assert b != [] ==> b[0] in a;
    if a != [] {
      var m :| 0 <= m < |b| && b[m] == a[0];
      assert b[0] in a;
      var n :| 0 <= n < |a| && a[n] == b[0];
      if m != 0 && n != 0 {
        assert Lt(b[0], b[m]) && Lt(a[0], a[n]);
        LeAntisymmetric(a[0], b[0]);
        assert false;
      }
      assert a[0] == b[0];
      forall x | x in a[1..]
        ensures x in b[1..]
      {
        var k :| 0 <= k < |a[1..]| && a[1..][k] == x;
        assert Lt(a[0], a[k + 1]) && x == a[k + 1] && x in b;
        var j :| 0 <= j < |b| && b[j] == x;
        assert j != 0 && b[1..][j - 1] == x;
      }
      forall x | x in b[1..]
        ensures x in a[1..]
      {
        var k :| 0 <= k < |b[1..]| && b[1..][k] == x;
        assert Lt(b[0], b[k + 1]) && x == b[k + 1] && x in a;
        var j :| 0 <= j < |a| && a[j] == x;
        assert j != 0 && a[1..][j - 1] == x;
      }
      StrictlyIncreasingUnique(a[1..], b[1..]);
      assert a == [a[0]] + a[1..] && b == [b[0]] + b[1..];
    }
  }
}
