/**
 * Sequence operations shared by the table and cache models.
 *
 * A Spark DataFrame is modelled as a sequence of rows: `union` is
 * concatenation (Spark's union keeps duplicates) and `distinct` drops
 * repeated rows.
 */
module Seqs {

  datatype Option<+T> = None | Some(value: T)

  /** No element occurs twice. */
  predicate NoDuplicates<T(==,!new)>(s: seq<T>) {
    forall i, j :: 0 <= i < j < |s| ==> s[i] != s[j]
  }

  /**
   * `s` with every element kept only at its first occurrence; Spark's
   * `distinct` leaves the order unspecified, this model keeps the order of
   * first occurrences.
   */
  function Distinct<T(==,!new)>(s: seq<T>): (r: seq<T>)
    ensures NoDuplicates(r)
    ensures forall x :: x in r <==> x in s
    ensures |r| <= |s|
  {
    if s == [] then []
    else
      var init := s[..|s| - 1];
      var r := Distinct(init);
      assert forall x :: x in s <==> x in init || x == s[|s| - 1] by {
        assert s == init + [s[|s| - 1]];
      }
      if s[|s| - 1] in r then r else r + [s[|s| - 1]]
  }

  /** A duplicate-free sequence is its own distinct form. */
  lemma {:induction false} DistinctOfNoDuplicates<T(!new)>(s: seq<T>)
    requires NoDuplicates(s)
    ensures Distinct(s) == s
  {
    if s != [] {
      var init := s[..|s| - 1];
      DistinctOfNoDuplicates(init);
      assert s[|s| - 1] !in init;
      assert s == init + [s[|s| - 1]];
    }
  }

  /**
   * Appending elements that are already present to a duplicate-free
   * sequence changes nothing once duplicates are dropped.
   */
  lemma {:induction false} DistinctAbsorbs<T(!new)>(s: seq<T>, a: seq<T>)
    requires NoDuplicates(s)
    requires forall x :: x in a ==> x in s
    ensures Distinct(s + a) == s
  {
    if a == [] {
      assert s + a == s;
      DistinctOfNoDuplicates(s);
    } else {
      var init := a[..|a| - 1];
      assert (s + a)[..|s + a| - 1] == s + init;
      assert (s + a)[|s + a| - 1] == a[|a| - 1];
      DistinctAbsorbs(s, init);
    }
  }

  /** In a duplicate-free sequence every element occurs exactly once. */
  lemma {:induction false} NoDuplicatesOnce<T(!new)>(s: seq<T>, x: T)
    requires NoDuplicates(s)
    ensures multiset(s)[x] == if x in s then 1 else 0
  {
    if s != [] {
      var init := s[..|s| - 1];
      assert s == init + [s[|s| - 1]];
      assert s[|s| - 1] !in init;
      NoDuplicatesOnce(init, x);
    }
  }

  /**
   * Two duplicate-free sequences with the same elements are the same
   * multiset: they differ at most in order.
   */
  lemma SameElements<T(!new)>(a: seq<T>, b: seq<T>)
    requires NoDuplicates(a) && NoDuplicates(b)
    requires forall x :: x in a <==> x in b
    ensures multiset(a) == multiset(b)
  {
    forall x | true
      ensures multiset(a)[x] == multiset(b)[x]
    {
      NoDuplicatesOnce(a, x);
      NoDuplicatesOnce(b, x);
    }
  }
}
