/**
 * Ordering one side's players by position before their champions become
 * columns. The extraction step sorts (champion, position index) pairs by
 * the index with Python's `sorted`, a stable sort. A stable sort by a key
 * with five values is determined by its input: all TOP players, then all
 * JUNGLE players, ... then all UTILITY players, each group in arrival
 * order. This module defines that arrangement and proves it is a sorted
 * permutation of the input that keeps each group's order.
 */
module PositionSort {
  import opened Schema

  /** A player of one side: the champion played and the reported position. */
  datatype Slot = Slot(champion: string, role: Role)

  predicate Sorted(s: seq<Slot>) {
    forall i, j :: 0 <= i < j < |s| ==> Rank(s[i].role) <= Rank(s[j].role)
  }

  /** The slots of `s` whose position has rank `k`, in arrival order. */
  function Group(s: seq<Slot>, k: nat): (r: seq<Slot>)
    ensures |r| <= |s|
  {
    if s == [] then []
    else (if Rank(s[0].role) == k then [s[0]] else []) + Group(s[1..], k)
  }

  /** A grouped slot comes from the input and has the group's rank. */
  lemma {:induction false} GroupMember(s: seq<Slot>, k: nat, y: Slot)
    requires y in Group(s, k)
    ensures y in s && Rank(y.role) == k
  {
    if y != s[0] || Rank(s[0].role) != k {
      GroupMember(s[1..], k, y);
    }
  }

  /** Every slot of the group's rank is grouped. */
  lemma {:induction false} GroupHas(s: seq<Slot>, k: nat, y: Slot)
    requires y in s && Rank(y.role) == k
    ensures y in Group(s, k)
  {
    if y != s[0] {
      GroupHas(s[1..], k, y);
    }
  }

  /** A group holds every copy of the slots of its rank and nothing else. */
  lemma {:induction false} GroupCount(s: seq<Slot>, k: nat, y: Slot)
    ensures multiset(Group(s, k))[y] == if Rank(y.role) == k then multiset(s)[y] else 0
  {
    if s != [] {
      GroupCount(s[1..], k, y);
      var h := if Rank(s[0].role) == k then [s[0]] else [];
      assert multiset(Group(s, k)) == multiset(h) + multiset(Group(s[1..], k));
      assert multiset(s) == multiset{s[0]} + multiset(s[1..]) by {
        assert s == [s[0]] + s[1..];
      }
    }
  }

  lemma {:induction false} GroupConcat(a: seq<Slot>, b: seq<Slot>, k: nat)
    ensures Group(a + b, k) == Group(a, k) + Group(b, k)
  {
    if a == [] {
      assert a + b == b;
    } else {
      var h := if Rank(a[0].role) == k then [a[0]] else [];
      assert (a + b)[0] == a[0];
      assert (a + b)[1..] == a[1..] + b;
      assert Group(a + b, k) == h + Group(a[1..] + b, k);
      GroupConcat(a[1..], b, k);
      assert h + (Group(a[1..], k) + Group(b, k)) == (h + Group(a[1..], k)) + Group(b, k);
    }
  }

  /** Grouping by a rank keeps everything of a sequence that holds only that rank. */
  lemma {:induction false} GroupOfGroup(s: seq<Slot>, j: nat, k: nat)
    ensures Group(Group(s, j), k) == if j == k then Group(s, j) else []
  {
    if s != [] {
      GroupOfGroup(s[1..], j, k);
      var head := if Rank(s[0].role) == j then [s[0]] else [];
      GroupConcat(head, Group(s[1..], j), k);
      if head != [] {
        assert ([s[0]] + [])[1..] == [];
        assert [s[0]] + [] == [s[0]];
      }
    }
  }

  /** The slots of ranks `lo` .. 4, grouped by rank, each group in arrival order. */
  function Buckets(s: seq<Slot>, lo: nat): seq<Slot>
    decreases 5 - lo
  {
    if lo >= 5 then [] else Group(s, lo) + Buckets(s, lo + 1)
  }

  lemma {:induction false} BucketsAtLeast(s: seq<Slot>, lo: nat, y: Slot)
    requires y in Buckets(s, lo)
    ensures lo <= Rank(y.role)
    decreases 5 - lo
  {
    if y in Group(s, lo) {
      GroupMember(s, lo, y);
    } else {
      assert y in Buckets(s, lo + 1);
      BucketsAtLeast(s, lo + 1, y);
    }
  }

  /** The groups from `lo` on hold every copy of the slots of rank `lo` or more. */
  lemma {:induction false} BucketsCount(s: seq<Slot>, lo: nat, y: Slot)
    ensures multiset(Buckets(s, lo))[y] == if lo <= Rank(y.role) then multiset(s)[y] else 0
    decreases 5 - lo
  {
    if lo < 5 {
      BucketsCount(s, lo + 1, y);
      GroupCount(s, lo, y);
    }
  }

  lemma {:induction false} BucketsSorted(s: seq<Slot>, lo: nat)
    ensures Sorted(Buckets(s, lo))
    decreases 5 - lo
  {
    if lo < 5 {
      BucketsSorted(s, lo + 1);
      var g, rest := Group(s, lo), Buckets(s, lo + 1);
      var b := g + rest;
      forall i, j | 0 <= i < j < |b|
        ensures Rank(b[i].role) <= Rank(b[j].role)
      {
        if j < |g| {
          GroupMember(s, lo, b[i]);
          GroupMember(s, lo, b[j]);
        } else if i < |g| {
          GroupMember(s, lo, b[i]);
          assert b[j] == rest[j - |g|];
          BucketsAtLeast(s, lo + 1, rest[j - |g|]);
        } else {
          assert b[i] == rest[i - |g|] && b[j] == rest[j - |g|];
        }
      }
    }
  }

  /**
   * The slots of a side ordered by position index, as Python's stable
   * `sorted(..., key=...)` orders them: a sorted rearrangement of the input.
   */
  function Sort(s: seq<Slot>): (r: seq<Slot>)
    ensures multiset(r) == multiset(s)
    ensures |r| == |s|
    ensures Sorted(r)
  {
    var r := Buckets(s, 0);
    forall y ensures multiset(r)[y] == multiset(s)[y] {
      BucketsCount(s, 0, y);
    }
    assert multiset(r) == multiset(s);
    assert |r| == |multiset(r)| == |multiset(s)| == |s|;
    BucketsSorted(s, 0);
    r
  }

  lemma {:induction false} GroupOfBuckets(s: seq<Slot>, lo: nat, k: nat)
    requires k < 5
    ensures Group(Buckets(s, lo), k) == if lo <= k then Group(s, k) else []
    decreases 5 - lo
  {
    if lo < 5 {
      GroupConcat(Group(s, lo), Buckets(s, lo + 1), k);
      GroupOfGroup(s, lo, k);
      GroupOfBuckets(s, lo + 1, k);
    }
  }

  /**
   * The sort is stable: the players of any one position keep their arrival
   * order.
   */
  lemma SortIsStable(s: seq<Slot>, role: Role)
    ensures Group(Sort(s), Rank(role)) == Group(s, Rank(role))
  {
    GroupOfBuckets(s, 0, Rank(role));
  }

  /** Exactly one player of the side holds each of the five positions. */
  predicate OnePerRole(s: seq<Slot>) {
    forall k :: 0 <= k < 5 ==> |Group(s, k)| == 1
  }

  /** With one player per position, the groups from `lo` on hold one slot each. */
  lemma {:induction false} BucketsOfSingletons(s: seq<Slot>, lo: nat)
    requires OnePerRole(s)
    requires lo <= 5
    ensures |Buckets(s, lo)| == 5 - lo
    decreases 5 - lo
  {
    if lo < 5 {
      BucketsOfSingletons(s, lo + 1);
      assert |Group(s, lo)| == 1;
    }
  }

  /** With one player per position, entry `i` of the groups from `lo` on is the player of rank `lo + i`. */
  lemma {:induction false} BucketsEntry(s: seq<Slot>, lo: nat, i: nat)
    requires OnePerRole(s)
    requires lo + i < 5
    ensures i < |Buckets(s, lo)| && Buckets(s, lo)[i] == Group(s, lo + i)[0]
    decreases i
  {
    BucketsOfSingletons(s, lo);
    assert |Group(s, lo)| == 1;
    SingletonHead(Group(s, lo), Buckets(s, lo + 1), i);
    if i > 0 {
      BucketsEntry(s, lo + 1, i - 1);
    }
  }

  lemma SingletonHead(g: seq<Slot>, rest: seq<Slot>, i: nat)
    requires |g| == 1 && i < 1 + |rest|
    ensures (g + rest)[i] == if i == 0 then g[0] else rest[i - 1]
  {
  }

  /** With one player per position, the sorted side holds that player at the position's index. */
  lemma SortAt(s: seq<Slot>, k: nat)
    requires OnePerRole(s)
    requires k < 5
    ensures |Sort(s)| == 5
    ensures |Group(s, k)| == 1
    ensures Sort(s)[k] == Group(s, k)[0]
  {
    BucketsOfSingletons(s, 0);
    BucketsEntry(s, 0, k);
  }

  /**
   * With one player per position the sorted side has five entries and puts
   * each player at the index of its position.
   */
  lemma SortPlacesEachRole(s: seq<Slot>)
    requires OnePerRole(s)
    ensures |Sort(s)| == 5
    ensures forall x :: x in s ==> Sort(s)[Rank(x.role)] == x
    ensures forall k :: 0 <= k < 5 ==> Sort(s)[k].role == RoleAt(k)
  {
    SortAt(s, 0);
    forall x | x in s
      ensures Sort(s)[Rank(x.role)] == x
    {
      var k := Rank(x.role);
      SortAt(s, k);
      GroupHas(s, k, x);
      var g := Group(s, k);
      assert g == [g[0]];
    }
    forall k | 0 <= k < 5
      ensures Sort(s)[k].role == RoleAt(k)
    {
      SortAt(s, k);
      var g := Group(s, k);
      assert g[0] in g;
      GroupMember(s, k, g[0]);
    }
  }
}
