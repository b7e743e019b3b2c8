/** Stable sorting by a strict weak order, as insertion sort does it. */
module Sorting {
  import opened Common

  /** What Go asks of a `less` function. */
  ghost predicate StrictWeak<T(!new)>(less: (T, T) -> bool) {
    && (forall x, y :: less(x, y) ==> !less(y, x))
    && (forall x, y, z :: !less(x, y) && !less(y, z) ==> !less(x, z))
  }

  ghost predicate SortedBy<T>(less: (T, T) -> bool, s: seq<T>) {
    forall i, j :: 0 <= i < j < |s| ==> !less(s[j], s[i])
  }

  predicate Equivalent<T>(less: (T, T) -> bool, x: T, y: T) { !less(x, y) && !less(y, x) }

  /** The elements that tie with `c`, in order. */
  function Ties<T>(less: (T, T) -> bool, c: T, s: seq<T>): seq<T> {
    Filter((y: T) => Equivalent(less, c, y), s)
  }

  /** Puts `x` behind everything it is not less than, working from the right. */
  function Insert<T>(less: (T, T) -> bool, s: seq<T>, x: T): seq<T> {
    if s == [] || !less(x, Last(s)) then s + [x] else Insert(less, DropLast(s), x) + [Last(s)]
  }

  function StableSort<T>(less: (T, T) -> bool, s: seq<T>): seq<T> {
    if s == [] then [] else Insert(less, StableSort(less, DropLast(s)), Last(s))
  }

  lemma {:induction false} InsertHolds<T>(less: (T, T) -> bool, s: seq<T>, x: T)
    ensures multiset(Insert(less, s, x)) == multiset(s) + multiset{x}
  {
    if s != [] && less(x, Last(s)) {
      InsertHolds(less, DropLast(s), x);
      assert s == DropLast(s) + [Last(s)];
    }
  }

  lemma {:induction false} InsertSorts<T(!new)>(less: (T, T) -> bool, s: seq<T>, x: T)
    requires StrictWeak(less) && SortedBy(less, s)
    ensures SortedBy(less, Insert(less, s, x))
  {
    if s != [] {
      if less(x, Last(s)) {
        InsertSorts(less, DropLast(s), x);
        InsertHolds(less, DropLast(s), x);
        var r := Insert(less, DropLast(s), x);
        forall i | 0 <= i < |r| ensures !less(Last(s), r[i]) {
          assert r[i] in multiset(DropLast(s)) + multiset{x};
        }
      } else {
        forall i | 0 <= i < |s| ensures !less(x, s[i]) {
          if i < |s| - 1 { assert !less(Last(s), s[i]); }
        }
      }
    }
  }

  lemma {:induction false} InsertIsStable<T(!new)>(less: (T, T) -> bool, s: seq<T>, x: T, c: T)
    requires StrictWeak(less)
    ensures Ties(less, c, Insert(less, s, x)) == Ties(less, c, s) + if Equivalent(less, c, x) then [x] else []
  {
    var p := (y: T) => Equivalent(less, c, y);
    if s == [] || !less(x, Last(s)) {
      FilterSnoc(p, s, x);
    } else {
      InsertIsStable(less, DropLast(s), x, c);
      FilterSnoc(p, Insert(less, DropLast(s), x), Last(s));
      assert !(p(x) && p(Last(s)));
    }
  }

  /** The result is sorted, a rearrangement, and keeps equivalent elements in their original order. */
  lemma {:induction false} StableSortIsRight<T(!new)>(less: (T, T) -> bool, s: seq<T>)
    requires StrictWeak(less)
    ensures SortedBy(less, StableSort(less, s))
    ensures multiset(StableSort(less, s)) == multiset(s)
    ensures forall c :: Ties(less, c, StableSort(less, s)) == Ties(less, c, s)
  {
    if s != [] {
      var init := DropLast(s);
      StableSortIsRight(less, init);
      InsertSorts(less, StableSort(less, init), Last(s));
      InsertHolds(less, StableSort(less, init), Last(s));
      assert s == init + [Last(s)];
      forall c ensures Ties(less, c, StableSort(less, s)) == Ties(less, c, s) {
        InsertIsStable(less, StableSort(less, init), Last(s), c);
        FilterSnoc((y: T) => Equivalent(less, c, y), init, Last(s));
      }
    }
  }

  /** Any stable sort gives the same result: a sorted sequence is determined by its groups of ties. */
  lemma {:induction false} StableSortIsUnique<T(!new)>(less: (T, T) -> bool, t: seq<T>, u: seq<T>)
    requires StrictWeak(less) && SortedBy(less, t) && SortedBy(less, u)
    requires forall c :: Ties(less, c, t) == Ties(less, c, u)
    ensures t == u
  {
    if t != [] && u != [] {
      var x, y := Last(t), Last(u);
      TiesHold(less, x, t, x);
      TiesHold(less, x, u, x);
      TiesHold(less, y, u, y);
      TiesHold(less, y, t, y);
      assert Equivalent(less, x, y);
      assert Last(Ties(less, x, t)) == x && Last(Ties(less, x, u)) == y;
      StableSortIsUnique(less, DropLast(t), DropLast(u)) by {
        forall c ensures Ties(less, c, DropLast(t)) == Ties(less, c, DropLast(u)) {
          assert Ties(less, c, t) == Ties(less, c, u);
          if Equivalent(less, c, x) {
            assert Ties(less, c, DropLast(t)) == DropLast(Ties(less, c, t));
            assert Ties(less, c, DropLast(u)) == DropLast(Ties(less, c, u));
          }
        }
      }
      assert t == DropLast(t) + [x] && u == DropLast(u) + [y];
    } else if t != [] {
      TiesHold(less, Last(t), t, Last(t));
      assert false;
    } else if u != [] {
      TiesHold(less, Last(u), u, Last(u));
      assert false;
    }
  }

  lemma {:induction false} TiesHold<T(!new)>(less: (T, T) -> bool, c: T, s: seq<T>, x: T)
    ensures x in Ties(less, c, s) <==> x in s && Equivalent(less, c, x)
  {
    if s != [] {
      TiesHold(less, c, DropLast(s), x);
      assert s == DropLast(s) + [Last(s)];
    }
  }

  lemma {:induction false} InsertAt<T>(less: (T, T) -> bool, s: seq<T>, x: T, j: nat)
    requires j <= |s| && (forall k :: j <= k < |s| ==> less(x, s[k])) && (j == 0 || !less(x, s[j - 1]))
    ensures Insert(less, s, x) == s[..j] + [x] + s[j..]
  {
    if j < |s| {
      InsertAt(less, DropLast(s), x, j);
      assert DropLast(s)[..j] == s[..j] && s[j..] == DropLast(s)[j..] + [Last(s)];
    } else {
      assert s[..j] == s && s[j..] == [];
    }
  }

  predicate Precedes<T>(less: (T, T) -> bool, x: T, y: T) { less(x, y) }

  // `x` at place `j`, with everything behind it moved one to the right.
  lemma SunkTo<T>(less: (T, T) -> bool, sorted: seq<T>, x: T, j: nat, sunk: seq<T>)
    requires j <= |sorted| && |sunk| == |sorted| + 1 && sunk[j] == x && (j == 0 || !less(x, sorted[j - 1]))
    requires forall k :: 0 <= k < j ==> sunk[k] == sorted[k]
    requires forall k :: j <= k < |sorted| ==> sunk[k + 1] == sorted[k]
    requires forall k :: j <= k < |sorted| ==> Precedes(less, x, sorted[k])
    ensures sunk == Insert(less, sorted, x)
  {
    forall k | j <= k < |sorted| ensures less(x, sorted[k]) { assert Precedes(less, x, sorted[k]); }
    InsertAt(less, sorted, x, j);
    assert sunk == sorted[..j] + [x] + sorted[j..];
  }

  /** Moves a[i] left by swaps until nothing before it is greater. */
  method SinkLeft<T>(a: array<T>, i: nat, less: (T, T) -> bool)
    requires i < a.Length
    modifies a
    ensures a[..i + 1] == Insert(less, old(a[..i]), old(a[i])) && a[i + 1..] == old(a[i + 1..])
  {
    ghost var x, sorted, rest := a[i], a[..i], a[i + 1..];
    var j := i;
    while j > 0 && less(a[j], a[j - 1])
      invariant j <= i && a[j] == x && forall k :: i < k < a.Length ==> a[k] == rest[k - i - 1]
      invariant forall k :: 0 <= k < j ==> a[k] == sorted[k]
      invariant forall k :: j <= k < i ==> a[k + 1] == sorted[k]
      invariant forall k :: j <= k < i ==> Precedes(less, x, sorted[k])
    {
      assert a[j - 1] == sorted[j - 1] && Precedes(less, x, sorted[j - 1]);
      a[j], a[j - 1] := a[j - 1], a[j];
      j := j - 1;
    }
    assert j > 0 ==> a[j - 1] == sorted[j - 1];
    SunkTo(less, sorted, x, j, a[..i + 1]);
    assert a[i + 1..] == rest;
  }

  /** Insertion sort in place. */
  method InsertionSort<T>(a: array<T>, less: (T, T) -> bool)
    modifies a
    ensures a[..] == StableSort(less, old(a[..]))
  {
    ghost var was := a[..];
    for i := 0 to a.Length
      invariant a[..i] == StableSort(less, was[..i]) && a[i..] == was[i..]
    {
      assert a[i] == a[i..][0] == was[i];
      assert a[i + 1..] == a[i..][1..] == was[i + 1..];
      SinkLeft(a, i, less);
      assert DropLast(was[..i + 1]) == was[..i];
    }
    assert was[..a.Length] == was && a[..a.Length] == a[..];
  }
}
