/**
 * Kotlin's `sortedBy { quality(it) }` on a list of n elements, modelled on the
 * elements' positions: the result lists the positions 0..n-1 ordered by
 * quality, equal qualities keeping their original order (the sort is stable).
 * Built by inserting each position, in order, after every position whose
 * quality is not greater.
 */
module SortedBy {

  /** Position `a` sorts strictly before position `b`: lower quality, or equal quality and earlier. */
  predicate SortsBefore(qs: seq<int>, a: nat, b: nat)
    requires a < |qs| && b < |qs|
  {
    qs[a] < qs[b] || (qs[a] == qs[b] && a < b)
  }

  predicate InRange(qs: seq<int>, s: seq<nat>) {
    forall x :: 0 <= x < |s| ==> s[x] < |qs|
  }

  /** `s` is ordered by quality, stably. */
  predicate StablySorted(qs: seq<int>, s: seq<nat>)
    requires InRange(qs, s)
  {
    forall x, y :: 0 <= x < y < |s| ==> SortsBefore(qs, s[x], s[y])
  }

  function Insert(qs: seq<int>, s: seq<nat>, i: nat): (r: seq<nat>)
    requires i < |qs| && InRange(qs, s)
    ensures InRange(qs, r) && |r| == |s| + 1
    decreases |s|
  {
    if |s| == 0 then [i]
    else if qs[i] < qs[s[0]] then [i] + s
    else [s[0]] + Insert(qs, s[1..], i)
  }

  /** Inserting adds exactly the inserted position. */
  lemma {:induction false} InsertMembers(qs: seq<int>, s: seq<nat>, i: nat)
    requires i < |qs| && InRange(qs, s)
    ensures forall v :: v in Insert(qs, s, i) <==> v in s || v == i
    decreases |s|
  {
    if |s| > 0 && qs[s[0]] <= qs[i] {
      InsertMembers(qs, s[1..], i);
      assert s == [s[0]] + s[1..];
    }
  }

  /** The positions 0..n-1 of `qs`, in `sortedBy` order. */
  function SortedPositions(qs: seq<int>, n: nat): (r: seq<nat>)
    requires n <= |qs|
    ensures InRange(qs, r) && |r| == n
  {
    if n == 0 then [] else Insert(qs, SortedPositions(qs, n - 1), n - 1)
  }

  lemma UnfoldSortedPositions(qs: seq<int>, n: nat)
    requires 0 < n <= |qs|
    ensures SortedPositions(qs, n) == Insert(qs, SortedPositions(qs, n - 1), n - 1)
  {
  }

  /** SortedPositions lists exactly the positions 0..n-1. */
  lemma {:induction false} SortedPositionsMembers(qs: seq<int>, n: nat)
    requires n <= |qs|
    ensures forall v :: v in SortedPositions(qs, n) <==> 0 <= v < n
  {
    if n > 0 {
      SortedPositionsMembers(qs, n - 1);
      InsertMembers(qs, SortedPositions(qs, n - 1), n - 1);
      UnfoldSortedPositions(qs, n);
    }
  }

  lemma {:induction false} InsertSorted(qs: seq<int>, s: seq<nat>, i: nat)
    requires i < |qs| && InRange(qs, s) && StablySorted(qs, s)
    requires forall x :: 0 <= x < |s| ==> s[x] < i
    ensures StablySorted(qs, Insert(qs, s, i))
    decreases |s|
  {
    if |s| > 0 && qs[s[0]] <= qs[i] {
      var rest := Insert(qs, s[1..], i);
      InsertSorted(qs, s[1..], i);
      InsertMembers(qs, s[1..], i);
      forall y | 0 <= y < |rest| ensures SortsBefore(qs, s[0], rest[y]) {
        assert rest[y] in rest;
        if rest[y] != i {
          var z :| 0 <= z < |s[1..]| && s[1..][z] == rest[y];
          assert s[1 + z] == rest[y];
        }
      }
    }
  }

  /** SortedPositions is ordered by quality, stably. */
  lemma {:induction false} SortedPositionsSorted(qs: seq<int>, n: nat)
    requires n <= |qs|
    ensures StablySorted(qs, SortedPositions(qs, n))
  {
    if n > 0 {
      var s := SortedPositions(qs, n - 1);
      SortedPositionsSorted(qs, n - 1);
      SortedPositionsMembers(qs, n - 1);
      forall x | 0 <= x < |s| ensures s[x] < n - 1 {
        assert s[x] in s;
      }
      InsertSorted(qs, s, n - 1);
      UnfoldSortedPositions(qs, n);
    }
  }

  /** SortedPositions lists each of 0..n-1 exactly once. */
  lemma SortedPositionsPermutation(qs: seq<int>, n: nat)
    requires n <= |qs|
    ensures |SortedPositions(qs, n)| == n
    ensures forall v :: v in SortedPositions(qs, n) <==> 0 <= v < n
    ensures forall x, y :: 0 <= x < y < n ==> SortedPositions(qs, n)[x] != SortedPositions(qs, n)[y]
  {
    SortedPositionsMembers(qs, n);
    SortedPositionsSorted(qs, n);
  }
}
