/** Bounded sorted selection: a vector that keeps, of everything inserted, the least
    representative of each of the `cap` smallest classes, in order. */
module BoundedSelection {

  /** `less` is a strict total order and `same` an equivalence whose classes are intervals of it. */
  ghost predicate Ordering<T(!new)>(less: (T, T) -> bool, same: (T, T) -> bool) {
    && (forall a :: !less(a, a) && same(a, a))
    && (forall a, b :: a == b || less(a, b) || less(b, a))
    && (forall a, b, c :: less(a, b) && less(b, c) ==> less(a, c))
    && (forall a, b :: same(a, b) ==> same(b, a))
    && (forall a, b, c :: same(a, b) && same(b, c) ==> same(a, c))
    && (forall a, b, c :: less(a, b) && less(b, c) && same(a, c) ==> same(a, b))
  }

  ghost predicate Sorted<T(!new)>(s: seq<T>, less: (T, T) -> bool) {
    forall i, j :: 0 <= i < j < |s| ==> less(s[i], s[j])
  }

  ghost predicate Distinct<T(!new)>(s: seq<T>, same: (T, T) -> bool) {
    forall i, j :: 0 <= i < j < |s| ==> !same(s[i], s[j])
  }

  /** No member of `inputs` of the class of `x` is below `x`. */
  ghost predicate Least<T(!new)>(x: T, inputs: set<T>, less: (T, T) -> bool, same: (T, T) -> bool) {
    x in inputs && forall y :: y in inputs && same(x, y) ==> !less(y, x)
  }

  /** `y` is represented in `s`, or lies above a full selection. */
  ghost predicate Covered<T(!new)>(y: T, s: seq<T>, cap: nat, less: (T, T) -> bool, same: (T, T) -> bool) {
    || (exists i :: 0 <= i < |s| && same(s[i], y))
    || (|s| == cap && forall i :: 0 <= i < |s| ==> less(s[i], y))
  }

  /** What a bounded selection is: sorted, of distinct classes, each by its least member, and no class left out
      unless it lies above a full selection. */
  ghost predicate Selects<T(!new)>(s: seq<T>, inputs: set<T>, cap: nat, less: (T, T) -> bool, same: (T, T) -> bool) {
    && |s| <= cap && Sorted(s, less) && Distinct(s, same)
    && (forall i :: 0 <= i < |s| ==> Least(s[i], inputs, less, same))
    && (forall y :: y in inputs ==> Covered(y, s, cap, less, same))
  }

  /** `std::lower_bound`: the first position whose element is not below `x`. */
  function LowerBound<T>(s: seq<T>, x: T, less: (T, T) -> bool): (i: nat)
    ensures i <= |s| && (forall j :: 0 <= j < i ==> less(s[j], x)) && (i < |s| ==> !less(s[i], x))
  {
    if |s| == 0 || !less(s[0], x) then 0 else 1 + LowerBound(s[1..], x, less)
  }

  /** `std::binary_search`. */
  predicate BinarySearch<T>(s: seq<T>, x: T, less: (T, T) -> bool) {
    var i := LowerBound(s, x, less);
    i < |s| && !less(x, s[i])
  }

  lemma BinarySearchFinds<T(!new)>(s: seq<T>, x: T, less: (T, T) -> bool, same: (T, T) -> bool)
    requires Ordering(less, same) && Sorted(s, less)
    ensures BinarySearch(s, x, less) <==> x in s
  {
    if x in s {
      var k :| 0 <= k < |s| && s[k] == x;
      var i := LowerBound(s, x, less);
      assert i <= k;
    }
  }

  /** `std::find_if` for the class of `x`: its position, or the length. */
  function FindSame<T>(s: seq<T>, x: T, same: (T, T) -> bool): (i: nat)
    ensures i <= |s| && (forall j :: 0 <= j < i ==> !same(s[j], x)) && (i < |s| ==> same(s[i], x))
  {
    if |s| == 0 || same(s[0], x) then 0 else 1 + FindSame(s[1..], x, same)
  }

  function InsertAt<T>(s: seq<T>, i: nat, x: T): (r: seq<T>)
    requires i <= |s|
    ensures |r| == |s| + 1 && r[i] == x
    ensures forall j :: 0 <= j < i ==> r[j] == s[j]
    ensures forall j :: i <= j < |s| ==> r[j + 1] == s[j]
  {
    s[..i] + [x] + s[i..]
  }

  /** `std::sort`, which a strict total order determines. */
  function SortFrom<T>(s: seq<T>, less: (T, T) -> bool): (r: seq<T>)
    ensures |r| == |s|
  {
    if |s| == 0 then []
    else
      var front, last := SortFrom(s[..|s| - 1], less), s[|s| - 1];
      InsertAt(front, LowerBound(front, last, less), last)
  }

  /** No element is below one before it. */
  ghost predicate InOrder<T(!new)>(s: seq<T>, less: (T, T) -> bool) {
    forall i, j :: 0 <= i < j < |s| ==> !less(s[j], s[i])
  }

  lemma InsertedInPlace<T(!new)>(s: seq<T>, x: T, less: (T, T) -> bool, same: (T, T) -> bool)
    requires Ordering(less, same) && InOrder(s, less)
    ensures var r := InsertAt(s, LowerBound(s, x, less), x);
            InOrder(r, less) && multiset(r) == multiset(s) + multiset{x}
  {
    hide Ordering, LowerBound;
    var p := LowerBound(s, x, less);
    forall i | 0 <= i < |s| ensures if i < p then !less(x, s[i]) else !less(s[i], x) {
      if i < p {
        Asymmetric(s[i], x, less, same);
      } else {
        NotBelow(s[p], s[i], x, less, same);
      }
    }
    BetweenOrdered(s, x, p, less);
    assert s == s[..p] + s[p..];
  }

  lemma Asymmetric<T(!new)>(a: T, b: T, less: (T, T) -> bool, same: (T, T) -> bool)
    requires Ordering(less, same) && less(a, b)
    ensures !less(b, a)
  {
  }

  lemma NotBelow<T(!new)>(a: T, b: T, x: T, less: (T, T) -> bool, same: (T, T) -> bool)
    requires Ordering(less, same) && !less(a, x) && (a == b || !less(b, a))
    ensures !less(b, x)
  {
  }

  lemma BetweenOrdered<T(!new)>(s: seq<T>, x: T, p: nat, less: (T, T) -> bool)
    requires p <= |s| && InOrder(s, less)
    requires forall i :: 0 <= i < |s| ==> if i < p then !less(x, s[i]) else !less(s[i], x)
    ensures InOrder(InsertAt(s, p, x), less)
  {
    var r := InsertAt(s, p, x);
    forall i, j | 0 <= i < j < |r| ensures !less(r[j], r[i]) {
      var a, b := if i < p then i else i - 1, if j < p then j else j - 1;
      assert i != p ==> r[i] == s[a];
      assert j != p ==> r[j] == s[b];
    }
  }

  /** The result is a permutation in order. */
  lemma {:induction false} SortSorts<T(!new)>(s: seq<T>, less: (T, T) -> bool, same: (T, T) -> bool)
    requires Ordering(less, same)
    ensures InOrder(SortFrom(s, less), less) && multiset(SortFrom(s, less)) == multiset(s)
  {
    hide Ordering, LowerBound, InsertAt;
    if |s| > 0 {
      SortSorts(s[..|s| - 1], less, same);
      InsertedInPlace(SortFrom(s[..|s| - 1], less), s[|s| - 1], less, same);
      assert s == s[..|s| - 1] + [s[|s| - 1]];
    }
  }

  /** What is in strict order stays as it is. */
  lemma {:induction false} SortIsIdle<T(!new)>(s: seq<T>, less: (T, T) -> bool)
    requires Sorted(s, less)
    ensures SortFrom(s, less) == s
  {
    if |s| > 0 {
      var front, last := s[..|s| - 1], s[|s| - 1];
      assert forall i :: 0 <= i < |front| ==> front[i] == s[i];
      SortIsIdle(front, less);
      assert forall i :: 0 <= i < |front| ==> less(front[i], last);
      assert LowerBound(front, last, less) == |front|;
      assert s == front + [last];
    }
  }

  /** Insertion of a class that is not represented yet. */
  function InsertNew<T>(s: seq<T>, x: T, cap: nat, less: (T, T) -> bool): seq<T> {
    var i := LowerBound(s, x, less);
    if |s| < cap then InsertAt(s, i, x)
    else if i < |s| then InsertAt(s, i, x)[..|s|]
    else s
  }

  function Insert<T>(s: seq<T>, x: T, cap: nat, less: (T, T) -> bool, same: (T, T) -> bool): seq<T> {
    var k := FindSame(s, x, same);
    if k < |s| then if less(x, s[k]) then s[k := x] else s
    else InsertNew(s, x, cap, less)
  }

  lemma ReplaceInOrder<T(!new)>(s: seq<T>, x: T, k: nat, less: (T, T) -> bool, same: (T, T) -> bool)
    requires Ordering(less, same) && Sorted(s, less) && Distinct(s, same)
    requires k < |s| && same(s[k], x) && less(x, s[k])
    ensures Sorted(s[k := x], less) && Distinct(s[k := x], same)
  {
    var own := s[k];
    forall i | 0 <= i < |s| && i != k
      ensures !same(s[i], x) && !same(x, s[i]) && (if i < k then less(s[i], x) else less(x, s[i]))
    {
      var other := s[i];
      assert !same(other, own) && !same(own, other);
      assert less(x, other) && less(other, own) ==> same(x, other);
    }
  }

  lemma ReplaceCovers<T(!new)>(s: seq<T>, x: T, k: nat, y: T, cap: nat, less: (T, T) -> bool, same: (T, T) -> bool)
    requires Ordering(less, same) && k < |s| && same(s[k], x) && less(x, s[k])
    requires Covered(y, s, cap, less, same)
    ensures Covered(y, s[k := x], cap, less, same)
  {
    var r := s[k := x];
    if i :| 0 <= i < |s| && same(s[i], y) {
      assert same(r[i], y);
    } else {
      assert less(s[k], y);
    }
  }

  /** The element at `k` gives way to a smaller one of its class; the order is not disturbed. */
  lemma ReplaceSelects<T(!new)>(s: seq<T>, inputs: set<T>, x: T, k: nat, cap: nat, less: (T, T) -> bool,
                                same: (T, T) -> bool)
    requires Ordering(less, same) && Selects(s, inputs, cap, less, same)
    requires k < |s| && same(s[k], x) && less(x, s[k])
    ensures Selects(s[k := x], inputs + {x}, cap, less, same)
  {
    var r := s[k := x];
    ReplaceInOrder(s, x, k, less, same);
    forall y | y in inputs ensures Covered(y, r, cap, less, same) {
      ReplaceCovers(s, x, k, y, cap, less, same);
    }
    assert same(r[k], x);
    forall i | 0 <= i < |s| ensures Least(r[i], inputs + {x}, less, same) {
      assert Least(s[i], inputs, less, same);
      assert i != k ==> !same(r[i], x);
    }
  }

  lemma KeepSelects<T(!new)>(s: seq<T>, inputs: set<T>, x: T, k: nat, cap: nat, less: (T, T) -> bool,
                             same: (T, T) -> bool)
    requires Ordering(less, same) && Selects(s, inputs, cap, less, same)
    requires k < |s| && same(s[k], x) && !less(x, s[k])
    ensures Selects(s, inputs + {x}, cap, less, same)
  {
    forall i | 0 <= i < |s|
      ensures Least(s[i], inputs + {x}, less, same)
    {
      assert Least(s[i], inputs, less, same);
      var other, own := s[i], s[k];
      assert same(other, x) && i != k ==> same(other, own);
    }
    assert Covered(x, s, cap, less, same);
  }

  /** Nothing of the class of `x` was seen, or it lies above a full selection, and so does `x`. */
  lemma UnseenOrAbove<T(!new)>(s: seq<T>, inputs: set<T>, x: T, y: T, cap: nat, less: (T, T) -> bool,
                               same: (T, T) -> bool)
    requires Ordering(less, same) && Selects(s, inputs, cap, less, same)
    requires forall i :: 0 <= i < |s| ==> !same(s[i], x)
    requires y in inputs && same(x, y)
    ensures |s| == cap && forall i :: 0 <= i < |s| ==> less(s[i], x)
  {
    assert Covered(y, s, cap, less, same);
    forall i | 0 <= i < |s|
      ensures less(s[i], x)
    {
      assert !same(s[i], y);
      assert less(s[i], y);
      var below := s[i];
      assert less(x, below) ==> same(x, below);
    }
  }

  /** A new class that is not above a full selection is represented by `x`. */
  lemma NewIsLeast<T(!new)>(s: seq<T>, inputs: set<T>, x: T, cap: nat, less: (T, T) -> bool, same: (T, T) -> bool)
    requires Ordering(less, same) && Selects(s, inputs, cap, less, same)
    requires forall i :: 0 <= i < |s| ==> !same(s[i], x)
    requires |s| < cap || exists i :: 0 <= i < |s| && !less(s[i], x)
    ensures Least(x, inputs + {x}, less, same)
    ensures forall i :: 0 <= i < |s| ==> Least(s[i], inputs + {x}, less, same)
  {
    forall y | y in inputs ensures !same(x, y) {
      if same(x, y) {
        UnseenOrAbove(s, inputs, x, y, cap, less, same);
        assert false;
      }
    }
    OthersLeast(s, inputs, x, cap, less, same);
  }

  lemma OthersLeast<T(!new)>(s: seq<T>, inputs: set<T>, x: T, cap: nat, less: (T, T) -> bool, same: (T, T) -> bool)
    requires Selects(s, inputs, cap, less, same)
    requires forall i :: 0 <= i < |s| ==> !same(s[i], x)
    ensures forall i :: 0 <= i < |s| ==> Least(s[i], inputs + {x}, less, same)
  {
    forall i | 0 <= i < |s| ensures Least(s[i], inputs + {x}, less, same) {
      assert Least(s[i], inputs, less, same);
    }
  }

  lemma AboveSelects<T(!new)>(s: seq<T>, inputs: set<T>, x: T, cap: nat, less: (T, T) -> bool, same: (T, T) -> bool)
    requires Selects(s, inputs, cap, less, same) && |s| == cap
    requires forall i :: 0 <= i < |s| ==> !same(s[i], x) && less(s[i], x)
    ensures Selects(s, inputs + {x}, cap, less, same)
  {
    OthersLeast(s, inputs, x, cap, less, same);
    assert Covered(x, s, cap, less, same);
  }

  lemma InsertNewSelects<T(!new)>(s: seq<T>, inputs: set<T>, x: T, cap: nat, less: (T, T) -> bool, same: (T, T) -> bool)
    requires Ordering(less, same) && Selects(s, inputs, cap, less, same) && cap > 0
    requires forall i :: 0 <= i < |s| ==> !same(s[i], x)
    ensures Selects(InsertNew(s, x, cap, less), inputs + {x}, cap, less, same)
  {
    var p := LowerBound(s, x, less);
    if p == |s| == cap {
      AboveSelects(s, inputs, x, cap, less, same);
    } else {
      InsertedInOrder(s, x, p, less, same);
      NewIsLeast(s, inputs, x, cap, less, same);
      CutSelects(s, inputs, x, p, InsertNew(s, x, cap, less), cap, less, same);
    }
  }

  /** The selection with `x` put in, cut to its capacity. */
  lemma CutSelects<T(!new)>(s: seq<T>, inputs: set<T>, x: T, p: nat, r: seq<T>, cap: nat,
                            less: (T, T) -> bool, same: (T, T) -> bool)
    requires Ordering(less, same) && Selects(s, inputs, cap, less, same)
    requires p <= |s| && (p < |s| ==> !less(s[p], x))
    requires r == (if |s| < cap then InsertAt(s, p, x) else InsertAt(s, p, x)[..|s|]) && |r| > p
    requires Sorted(InsertAt(s, p, x), less) && Distinct(InsertAt(s, p, x), same)
    requires Least(x, inputs + {x}, less, same) && forall i :: 0 <= i < |s| ==> Least(s[i], inputs + {x}, less, same)
    ensures Selects(r, inputs + {x}, cap, less, same)
  {
    hide Ordering, Least, Covered, Sorted, Distinct;
    forall y | y in inputs ensures Covered(y, r, cap, less, same) {
      InsertedCovers(s, inputs, x, y, p, r, cap, less, same);
    }
    InsertedIsCovered(x, p, r, cap, less, same);
    CutLeast(s, inputs + {x}, x, p, r, less, same);
    PrefixInOrder(InsertAt(s, p, x), r, less, same);
  }

  lemma InsertedIsCovered<T(!new)>(x: T, p: nat, r: seq<T>, cap: nat, less: (T, T) -> bool, same: (T, T) -> bool)
    requires Ordering(less, same) && p < |r| && r[p] == x
    ensures Covered(x, r, cap, less, same)
  {
    assert same(r[p], x);
  }

  /** Everything that stays is an old member or the new one. */
  lemma CutLeast<T(!new)>(s: seq<T>, inputs: set<T>, x: T, p: nat, r: seq<T>, less: (T, T) -> bool,
                          same: (T, T) -> bool)
    requires p <= |s| && r <= InsertAt(s, p, x)
    requires Least(x, inputs, less, same) && forall i :: 0 <= i < |s| ==> Least(s[i], inputs, less, same)
    ensures forall i :: 0 <= i < |r| ==> Least(r[i], inputs, less, same)
  {
    hide Least;
    forall i | 0 <= i < |r| ensures Least(r[i], inputs, less, same) {
      assert r[i] == if i < p then s[i] else if i == p then x else s[i - 1];
    }
  }

  lemma PrefixInOrder<T(!new)>(all: seq<T>, r: seq<T>, less: (T, T) -> bool, same: (T, T) -> bool)
    requires r <= all && Sorted(all, less) && Distinct(all, same)
    ensures Sorted(r, less) && Distinct(r, same)
  {
    assert forall i :: 0 <= i < |r| ==> r[i] == all[i];
  }

  lemma InsertedInOrder<T(!new)>(s: seq<T>, x: T, p: nat, less: (T, T) -> bool, same: (T, T) -> bool)
    requires Ordering(less, same) && Sorted(s, less) && Distinct(s, same) && p == LowerBound(s, x, less)
    requires forall i :: 0 <= i < |s| ==> !same(s[i], x)
    ensures Sorted(InsertAt(s, p, x), less) && Distinct(InsertAt(s, p, x), same)
  {
    hide Ordering, LowerBound;
    forall i | 0 <= i < |s| ensures OnItsSide(s, x, p, i, less, same) {
      NotSame(s[i], x, less, same);
      if i >= p {
        Above(s[p], s[i], x, less, same);
      }
    }
    BetweenInOrder(s, x, p, less, same);
  }

  lemma NotSame<T(!new)>(a: T, x: T, less: (T, T) -> bool, same: (T, T) -> bool)
    requires Ordering(less, same) && !same(a, x)
    ensures !same(x, a) && a != x
  {
  }

  lemma Above<T(!new)>(a: T, b: T, x: T, less: (T, T) -> bool, same: (T, T) -> bool)
    requires Ordering(less, same) && !less(a, x) && (a == b || less(a, b)) && b != x
    ensures less(x, b)
  {
  }

  ghost predicate OnItsSide<T(!new)>(s: seq<T>, x: T, p: nat, i: nat, less: (T, T) -> bool, same: (T, T) -> bool)
    requires i < |s|
  {
    (if i < p then less(s[i], x) else less(x, s[i])) && !same(s[i], x) && !same(x, s[i])
  }

  lemma BetweenInOrder<T(!new)>(s: seq<T>, x: T, p: nat, less: (T, T) -> bool, same: (T, T) -> bool)
    requires Sorted(s, less) && Distinct(s, same) && p <= |s|
    requires forall i :: 0 <= i < |s| ==> OnItsSide(s, x, p, i, less, same)
    ensures Sorted(InsertAt(s, p, x), less) && Distinct(InsertAt(s, p, x), same)
  {
    var all := InsertAt(s, p, x);
    forall i, j | 0 <= i < j < |all|
      ensures less(all[i], all[j]) && !same(all[i], all[j])
    {
      var a, b := if i < p then i else i - 1, if j < p then j else j - 1;
      assert i != p ==> all[i] == s[a] && OnItsSide(s, x, p, a, less, same);
      assert j != p ==> all[j] == s[b] && OnItsSide(s, x, p, b, less, same);
    }
  }

  /** The position of an element that stays, or above everything that stays. */
  lemma StaysOrAbove<T(!new)>(all: seq<T>, k: nat, r: seq<T>, y: T, cap: nat, less: (T, T) -> bool,
                              same: (T, T) -> bool)
    requires Ordering(less, same) && Sorted(all, less) && r <= all && (|r| == cap || r == all)
    requires k < |all| && same(all[k], y) && !less(y, all[k])
    ensures Covered(y, r, cap, less, same)
  {
    if k < |r| {
      assert same(r[k], y);
    } else {
      forall j | 0 <= j < |r| ensures less(r[j], y) {
        assert less(all[j], all[k]);
      }
    }
  }

  lemma InsertedCovers<T(!new)>(s: seq<T>, inputs: set<T>, x: T, y: T, p: nat, r: seq<T>, cap: nat,
                                less: (T, T) -> bool, same: (T, T) -> bool)
    requires Ordering(less, same) && Selects(s, inputs, cap, less, same)
    requires p <= |s| && (p < |s| ==> !less(s[p], x)) && y in inputs
    requires r == (if |s| < cap then InsertAt(s, p, x) else InsertAt(s, p, x)[..|s|]) && |r| > p
    requires Sorted(InsertAt(s, p, x), less)
    ensures Covered(y, r, cap, less, same)
  {
    var all := InsertAt(s, p, x);
    assert Covered(y, s, cap, less, same);
    if i :| 0 <= i < |s| && same(s[i], y) {
      assert all[if i < p then i else i + 1] == s[i];
      assert Least(s[i], inputs, less, same);
      StaysOrAbove(all, if i < p then i else i + 1, r, y, cap, less, same);
    } else {
      var last := s[|s| - 1];
      assert all[|s|] == last && less(last, y);
      forall j | 0 <= j < |r| ensures less(r[j], y) {
        assert less(all[j], all[|s|]);
      }
    }
  }

  /** One insertion keeps the selection exact. */
  lemma InsertSelects<T(!new)>(s: seq<T>, inputs: set<T>, x: T, cap: nat, less: (T, T) -> bool, same: (T, T) -> bool)
    requires Ordering(less, same) && Selects(s, inputs, cap, less, same) && cap > 0
    ensures Selects(Insert(s, x, cap, less, same), inputs + {x}, cap, less, same)
  {
    var k := FindSame(s, x, same);
    if k < |s| {
      if less(x, s[k]) {
        ReplaceSelects(s, inputs, x, k, cap, less, same);
      } else {
        KeepSelects(s, inputs, x, k, cap, less, same);
      }
    } else {
      InsertNewSelects(s, inputs, x, cap, less, same);
    }
  }

  // ----- A set of inputs has one selection -----

  /** A member of one selection is in any other. */
  lemma InBoth<T(!new)>(a: seq<T>, b: seq<T>, inputs: set<T>, i: nat, cap: nat, less: (T, T) -> bool,
                        same: (T, T) -> bool)
    requires Ordering(less, same) && Selects(a, inputs, cap, less, same) && Selects(b, inputs, cap, less, same)
    requires i < |a|
    ensures a[i] in b
  {
    assert Least(a[i], inputs, less, same);
    assert Covered(a[i], b, cap, less, same);
    if exists j :: 0 <= j < |b| && same(b[j], a[i]) {
      var j :| 0 <= j < |b| && same(b[j], a[i]);
      assert Least(b[j], inputs, less, same);
    } else {
      forall j | 0 <= j < |b| ensures b[j] in a[..i] {
        assert less(b[j], a[i]);
        assert Least(b[j], inputs, less, same);
        assert Covered(b[j], a, cap, less, same);
        if k :| 0 <= k < |a| && same(a[k], b[j]) {
          assert Least(a[k], inputs, less, same);
          assert a[k] == b[j];
          assert k < i;
        }
      }
      Pigeonhole(b, a[..i], less, same);
    }
  }

  /** A sorted sequence drawn from another is no longer than it. */
  lemma Pigeonhole<T(!new)>(a: seq<T>, b: seq<T>, less: (T, T) -> bool, same: (T, T) -> bool)
    requires Ordering(less, same) && Sorted(a, less)
    requires forall i :: 0 <= i < |a| ==> a[i] in b
    ensures |a| <= |b|
  {
    if |a| > 0 {
      var last := a[|a| - 1];
      var k :| 0 <= k < |b| && b[k] == last;
      var rest := b[..k] + b[k + 1..];
      forall i | 0 <= i < |a| - 1 ensures a[i] in rest {
        assert less(a[i], last);
        var m :| 0 <= m < |b| && b[m] == a[i];
        assert rest[if m < k then m else m - 1] == a[i];
      }
      Pigeonhole(a[..|a| - 1], rest, less, same);
    }
  }

  lemma FirstAgrees<T(!new)>(a: seq<T>, b: seq<T>, less: (T, T) -> bool, same: (T, T) -> bool)
    requires Ordering(less, same) && Sorted(a, less) && Sorted(b, less) && |a| > 0 && |b| > 0
    requires a[0] in b && b[0] in a
    ensures a[0] == b[0]
  {
  }

  lemma SortedTail<T(!new)>(a: seq<T>, less: (T, T) -> bool, same: (T, T) -> bool)
    requires Ordering(less, same) && Sorted(a, less) && |a| > 0
    ensures Sorted(a[1..], less) && forall x :: x in a[1..] <==> x in a && x != a[0]
  {
    assert forall i :: 0 <= i < |a| - 1 ==> a[1..][i] == a[i + 1] && less(a[0], a[i + 1]);
    assert a == [a[0]] + a[1..];
  }

  lemma NotEmpty<T(!new)>(a: seq<T>, b: seq<T>)
    requires forall x :: x in a ==> x in b
    ensures |a| > 0 ==> |b| > 0
  {
    if |a| > 0 {
      assert a[0] in b;
    }
  }

  /** Sorted sequences with the same members are equal. */
  lemma {:induction false} SortedUnique<T(!new)>(a: seq<T>, b: seq<T>, less: (T, T) -> bool, same: (T, T) -> bool)
    requires Ordering(less, same) && Sorted(a, less) && Sorted(b, less)
    requires forall x :: x in a <==> x in b
    ensures a == b
  {
    hide Ordering, Sorted;
    NotEmpty(a, b);
    NotEmpty(b, a);
    if |a| > 0 {
      assert a[0] in b;
      assert b[0] in a;
      FirstAgrees(a, b, less, same);
      SortedTail(a, less, same);
      SortedTail(b, less, same);
      SortedUnique(a[1..], b[1..], less, same);
      assert a == [a[0]] + a[1..] && b == [b[0]] + b[1..];
    }
  }

  /** The selection is a function of the set of inputs: neither their order nor repetition matters. */
  lemma SelectionUnique<T(!new)>(a: seq<T>, b: seq<T>, inputs: set<T>, cap: nat, less: (T, T) -> bool,
                                 same: (T, T) -> bool)
    requires Ordering(less, same) && Selects(a, inputs, cap, less, same) && Selects(b, inputs, cap, less, same)
    ensures a == b
  {
    forall i | 0 <= i < |a| ensures a[i] in b {
      InBoth(a, b, inputs, i, cap, less, same);
    }
    forall i | 0 <= i < |b| ensures b[i] in a {
      InBoth(b, a, inputs, i, cap, less, same);
    }
    SortedUnique(a, b, less, same);
  }

  // ----- Inserting a whole sequence -----

  ghost function Members<T(!new)>(s: seq<T>): set<T> {
    set x | x in s
  }

  function SelectFrom<T>(inputs: seq<T>, cap: nat, less: (T, T) -> bool, same: (T, T) -> bool): seq<T> {
    if |inputs| == 0 then []
    else Insert(SelectFrom(inputs[..|inputs| - 1], cap, less, same), inputs[|inputs| - 1], cap, less, same)
  }

  lemma {:induction false} SelectFromSelects<T(!new)>(inputs: seq<T>, cap: nat, less: (T, T) -> bool,
                                                      same: (T, T) -> bool)
    requires Ordering(less, same) && cap > 0
    ensures Selects(SelectFrom(inputs, cap, less, same), Members(inputs), cap, less, same)
  {
    if |inputs| > 0 {
      var front, last := inputs[..|inputs| - 1], inputs[|inputs| - 1];
      SelectFromSelects(front, cap, less, same);
      InsertSelects(SelectFrom(front, cap, less, same), Members(front), last, cap, less, same);
      assert inputs == front + [last];
      assert Members(inputs) == Members(front) + {last};
    }
  }

  /** Inputs with the same members select the same sequence, in whatever order and however often they come. */
  lemma SelectionOrderFree<T(!new)>(a: seq<T>, b: seq<T>, cap: nat, less: (T, T) -> bool, same: (T, T) -> bool)
    requires Ordering(less, same) && cap > 0 && Members(a) == Members(b)
    ensures SelectFrom(a, cap, less, same) == SelectFrom(b, cap, less, same)
  {
    SelectFromSelects(a, cap, less, same);
    SelectFromSelects(b, cap, less, same);
    SelectionUnique(SelectFrom(a, cap, less, same), SelectFrom(b, cap, less, same), Members(a), cap, less, same);
  }
}
