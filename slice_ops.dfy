/**
 * The standard-library slice and vector operations the Kniffel engine relies on:
 * in-place sorting of the dice (`sort`, `sort_unstable`) and removal of consecutive
 * duplicates (`dedup`), together with the facts about them that the scoring rules
 * and the game state machine need.
 */
module SliceOps {

  /** Ascending order (duplicates allowed). */
  predicate Sorted(s: seq<int>) {
    forall i, j :: 0 <= i < j < |s| ==> s[i] <= s[j]
  }

  /** Strictly ascending order: sorted and free of duplicates. */
  predicate StrictlySorted(s: seq<int>) {
    forall i, j :: 0 <= i < j < |s| ==> s[i] < s[j]
  }

  /** The set of values that occur in `s`. */
  function Faces(s: seq<int>): set<int> {
    set x | x in s
  }

  /** Exchanges two elements of an array. */
  method Swap(a: array<int>, i: nat, j: nat)
    requires i < a.Length && j < a.Length
    modifies a
    ensures a[i] == old(a[j]) && a[j] == old(a[i])
    ensures forall k :: 0 <= k < a.Length && k != i && k != j ==> a[k] == old(a[k])
    ensures multiset(a[..]) == multiset(old(a[..]))
  {
    a[i], a[j] := a[j], a[i];
  }

  /** In-place ascending sort (insertion sort): the result is an ordered permutation. */
  method SortInPlace(a: array<int>)
    modifies a
    ensures Sorted(a[..])
    ensures multiset(a[..]) == multiset(old(a[..]))
  {
    var i := 0;
    while i < a.Length
      invariant 0 <= i <= a.Length
      invariant forall p, q :: 0 <= p < q < i ==> a[p] <= a[q]
      invariant multiset(a[..]) == multiset(old(a[..]))
    {
      var j := i;
      while 0 < j && a[j] < a[j - 1]
        invariant 0 <= j <= i
        invariant forall p, q :: 0 <= p < q <= i && p != j && q != j ==> a[p] <= a[q]
        invariant forall q :: j < q <= i ==> a[j] <= a[q]
        invariant multiset(a[..]) == multiset(old(a[..]))
      {
        Swap(a, j - 1, j);
        j := j - 1;
      }
      i := i + 1;
    }
  }

  /** Inserts `x` before the first element not smaller than it. */
  function Insert(x: int, s: seq<int>): (r: seq<int>)
    ensures |r| == |s| + 1
  {
    if s == [] || x <= s[0] then [x] + s else [s[0]] + Insert(x, s[1..])
  }

  /** Insertion adds exactly `x` and keeps an ascending sequence ascending. */
  lemma {:induction false} InsertCorrect(x: int, s: seq<int>)
    ensures multiset(Insert(x, s)) == multiset(s) + multiset{x}
    ensures Sorted(s) ==> Sorted(Insert(x, s))
  {
    if s == [] || x <= s[0] {
      assert Insert(x, s) == [x] + s;
      if Sorted(s) {
        SortedCons(x, s);
      }
    } else {
      var rest := Insert(x, s[1..]);
      assert Insert(x, s) == [s[0]] + rest;
      InsertCorrect(x, s[1..]);
      assert multiset(s) == multiset{s[0]} + multiset(s[1..]) by {
        assert s == [s[0]] + s[1..];
      }
      if Sorted(s) {
        TailSorted(s);
        forall k | 0 <= k < |rest|
          ensures s[0] <= rest[k]
        {
          assert rest[k] in multiset(rest);
          assert rest[k] in s[1..] || rest[k] == x;
        }
        SortedCons(s[0], rest);
      }
    }
  }

  /** A head no larger than any element of an ascending tail gives an ascending sequence. */
  lemma SortedCons(h: int, t: seq<int>)
    requires Sorted(t)
    requires forall k :: 0 <= k < |t| ==> h <= t[k]
    ensures Sorted([h] + t)
  {
    var r := [h] + t;
    forall i, j | 0 <= i < j < |r|
      ensures r[i] <= r[j]
    {
      assert r[j] == t[j - 1];
      if i > 0 {
        assert r[i] == t[i - 1];
      }
    }
  }

  /**
   * The ascending permutation of `s`: the value that `sort` leaves in a slice,
   * used where a specification needs the sorted hand as a value.
   */
  function SortSeq(s: seq<int>): (r: seq<int>)
    ensures |r| == |s|
  {
    if s == [] then [] else Insert(s[0], SortSeq(s[1..]))
  }

  /** `SortSeq` yields an ascending permutation of its input. */
  lemma {:induction false} SortSeqCorrect(s: seq<int>)
    ensures Sorted(SortSeq(s))
    ensures multiset(SortSeq(s)) == multiset(s)
  {
    if s != [] {
      SortSeqCorrect(s[1..]);
      InsertCorrect(s[0], SortSeq(s[1..]));
      assert s == [s[0]] + s[1..];
    }
  }

  lemma TailSorted(s: seq<int>)
    requires Sorted(s) && s != []
    ensures Sorted(s[1..])
  {
    forall i, j | 0 <= i < j < |s| - 1
      ensures s[1..][i] <= s[1..][j]
    {
      assert s[1..][i] == s[i + 1] && s[1..][j] == s[j + 1];
    }
  }

  /** Two ascending sequences with the same elements are equal: a sort has one result. */
  lemma {:induction false} SortedPermutationUnique(a: seq<int>, b: seq<int>)
    requires Sorted(a) && Sorted(b)
    requires multiset(a) == multiset(b)
    ensures a == b
  {
    if a != [] {
      assert |b| == |a| by { assert |multiset(a)| == |multiset(b)|; }
      assert a[0] in multiset(b);
      assert b[0] in multiset(a);
      assert a[0] == b[0];
      assert multiset(a) == multiset{a[0]} + multiset(a[1..]) by {
        assert a == [a[0]] + a[1..];
      }
      assert multiset(b) == multiset{b[0]} + multiset(b[1..]) by {
        assert b == [b[0]] + b[1..];
      }
      assert multiset(a[1..]) == multiset(b[1..]) by {
        assert multiset(a[1..]) == multiset(a) - multiset{a[0]};
        assert multiset(b[1..]) == multiset(b) - multiset{b[0]};
      }
      assert Sorted(a[1..]) && Sorted(b[1..]) by {
        TailSorted(a);
        TailSorted(b);
      }
      SortedPermutationUnique(a[1..], b[1..]);
      assert a == [a[0]] + a[1..];
      assert b == [b[0]] + b[1..];
    } else {
      assert |multiset(b)| == 0;
    }
  }

  /** `Vec::dedup`: removes consecutive repeated elements, keeping the first of each run. */
  function Dedup(s: seq<int>): (r: seq<int>)
    ensures Faces(r) == Faces(s)
    ensures |r| <= |s|
    ensures s != [] ==> r != [] && r[0] == s[0]
    ensures Sorted(s) ==> StrictlySorted(r)
  {
    if |s| <= 1 then s
    else if s[0] == s[1] then
      var rest := Dedup(s[1..]);
      assert Faces(s) == Faces(s[1..]) by {
        assert s == [s[0]] + s[1..];
      }
      rest
    else
      var rest := Dedup(s[1..]);
      assert Faces(s) == {s[0]} + Faces(s[1..]) by {
        assert s == [s[0]] + s[1..];
      }
      assert Sorted(s) ==> forall k :: 0 <= k < |rest| ==> s[0] < rest[k] by {
        if Sorted(s) {
          forall k | 0 <= k < |rest|
            ensures s[0] < rest[k]
          {
            assert rest[k] in Faces(s[1..]);
          }
        }
      }
      [s[0]] + rest
  }

  /** Two strictly ascending sequences with the same set of values are equal. */
  lemma {:induction false} StrictlySortedByFaces(a: seq<int>, b: seq<int>)
    requires StrictlySorted(a) && StrictlySorted(b)
    requires Faces(a) == Faces(b)
    ensures a == b
  {
    if a == [] {
      assert forall k :: 0 <= k < |b| ==> b[k] in Faces(b);
    } else {
      assert a[0] in Faces(b);
      assert b != [];
      assert b[0] in Faces(a);
      assert a[0] == b[0];
      assert Faces(a[1..]) == Faces(a) - {a[0]} by {
        assert a == [a[0]] + a[1..];
      }
      assert Faces(b[1..]) == Faces(b) - {b[0]} by {
        assert b == [b[0]] + b[1..];
      }
      StrictlySortedByFaces(a[1..], b[1..]);
      assert a == [a[0]] + a[1..];
      assert b == [b[0]] + b[1..];
    }
  }
}
