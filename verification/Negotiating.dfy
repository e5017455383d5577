/** Version ranges and sorted capability lists: what both handshakes negotiate over. */
module Negotiating {
  import opened Common

  datatype Version = Version(major: u8, minor: u8)

  // ----- Versions -----

  predicate VersionLess(a: Version, b: Version) {
    a.major < b.major || (a.major == b.major && a.minor < b.minor)
  }

  function VersionMaximum(a: Version, b: Version): Version {
    if VersionLess(a, b) then b else a
  }

  function VersionMinimum(a: Version, b: Version): Version {
    if VersionLess(a, b) then a else b
  }

  predicate InRange(v: Version, minimum: Version, maximum: Version) {
    !VersionLess(v, minimum) && !VersionLess(maximum, v)
  }

  // ----- Sorted capability lists -----

  predicate Increasing(s: seq<u32>) {
    forall i, j :: 0 <= i < j < |s| ==> s[i] < s[j]
  }

  /** The adjacent comparisons of the source's loops. */
  predicate AdjacentIncreasing(s: seq<u32>) {
    forall i :: 1 <= i < |s| ==> s[i - 1] < s[i]
  }

  lemma {:induction false} AdjacentIsIncreasing(s: seq<u32>)
    ensures AdjacentIncreasing(s) <==> Increasing(s)
  {
    if AdjacentIncreasing(s) && |s| > 0 {
      var front := s[..|s| - 1];
      AdjacentIsIncreasing(front);
      forall i, j | 0 <= i < j < |s|
        ensures s[i] < s[j]
      {
        if j == |s| - 1 && i < j - 1 {
          assert front[i] < front[j - 1];
        } else if j < |s| - 1 {
          assert front[i] < front[j];
        }
      }
    }
  }

  /** The elements of `a` that also occur in `b`, in the order of `a`. */
  function Shared(a: seq<u32>, b: seq<u32>): (r: seq<u32>)
    ensures forall x :: x in r <==> x in a && x in b
  {
    if |a| == 0 then []
    else
      var front, last := a[..|a| - 1], a[|a| - 1];
      assert forall x :: x in a <==> x in front || x == last;
      if last in b then Shared(front, b) + [last] else Shared(front, b)
  }

  lemma {:induction false} SharedIncreasing(a: seq<u32>, b: seq<u32>)
    requires Increasing(a)
    ensures Increasing(Shared(a, b))
  {
    if |a| > 0 {
      var front := a[..|a| - 1];
      SharedIncreasing(front, b);
      var shared := Shared(front, b);
      forall k | 0 <= k < |shared|
        ensures shared[k] < a[|a| - 1]
      {
        assert shared[k] in front;
        var i :| 0 <= i < |front| && front[i] == shared[k];
        assert a[i] == shared[k];
      }
    }
  }

  /** The merge loop of `ProcessNegotiate` computes the intersection of two sorted lists. */
  method MergeIntersection(a: seq<u32>, b: seq<u32>) returns (r: seq<u32>)
    requires Increasing(a) && Increasing(b)
    ensures r == Shared(a, b)
  {
    r := [];
    var i, j := 0, 0;
    while i < |a| && j < |b|
      invariant 0 <= i <= |a| && 0 <= j <= |b|
      invariant r == Shared(a[..i], b)
      invariant forall k :: 0 <= k < j && i < |a| ==> b[k] < a[i]
      decreases |a| - i + |b| - j
    {
      assert a[..i + 1][..i] == a[..i];
      if a[i] == b[j] {
        r := r + [a[i]];
        i, j := i + 1, j + 1;
      } else if a[i] < b[j] {
        assert forall k :: j <= k < |b| ==> a[i] < b[k];
        assert a[i] !in b;
        i := i + 1;
      } else {
        j := j + 1;
      }
    }
    NoneLeft(a, b, i);
  }

  /** Once every element of `b` is below the rest of `a`, the rest contributes nothing. */
  lemma {:induction false} NoneLeft(a: seq<u32>, b: seq<u32>, i: nat)
    requires Increasing(a) && i <= |a|
    requires i < |a| ==> forall k :: 0 <= k < |b| ==> b[k] < a[i]
    ensures Shared(a, b) == Shared(a[..i], b)
    decreases |a|
  {
    if i < |a| {
      var front := a[..|a| - 1];
      assert a[i] <= a[|a| - 1];
      assert a[|a| - 1] !in b;
      NoneLeft(front, b, i);
      assert front[..i] == a[..i];
    } else {
      assert a[..i] == a;
    }
  }
}
